/** The debugger operations of `PerlRuntime` (client/src/perlRuntime.ts:56-293):
    the perl5db commands each operation sends through `runCommand`, what it
    makes of the debuggee's replies, and the two breakpoint registries it
    keeps.

    Every operation awaits the response to each command it runs. Here the
    commands an operation runs are appended to the log `issued`, and the
    responses it awaits are parameters, in the order the operation awaits them.
    The queue that carries the commands to the socket is `RuntimeQueue`. */
module Runtime {
  import opened Text

  /** A line breakpoint the runtime has registered (`PerlBreakpoint`). */
  datatype Breakpoint = Breakpoint(path: string, line: int)

  /** A function breakpoint the runtime has registered: the file and first
      line of the sub, and the name it was set by. */
  datatype FunctionBreakpoint = FunctionBreakpoint(path: string, name: string, line: int)

  /** Where the debuggee says a sub starts (the JSON object it prints). */
  datatype Location = Location(file: string, line: int)

  // ---------------------------------------------------------------------
  // Command text

  /** ` <condition>` when a condition is given. */
  function ConditionSuffix(condition: Option<string>): string {
    match condition
    case None => ""
    case Some(c) => " " + c
  }

  /** `b <path>:<line>[ <condition>]`. */
  function BreakLineCommand(path: string, line: int, condition: Option<string>): string {
    "b " + path + ":" + IntToString(line) + ConditionSuffix(condition)
  }

  /** `require '<path>'`, which loads a module file before a breakpoint is set in it. */
  function RequireFileCommand(path: string): string {
    "require '" + path + "'"
  }

  /** `require <package>`. */
  function RequirePackageCommand(package: string): string {
    "require " + package
  }

  /** `b <name>[ <condition>]`. */
  function BreakSubCommand(name: string, condition: Option<string>): string {
    "b " + name + ConditionSuffix(condition)
  }

  /** The Perl snippet that prints the file and first line of the sub `name`
      as a JSON object, loading `B` only for the time it needs it. The text
      is written in short pieces, cut between Perl tokens, which keeps the
      verifier's work on the literal small. */
  function LocateSubCommand(name: string): string {
    "if (!$INC{" + "'B.pm'}) " + "{ require B; " + "$requiredB = 1; } " +
    "$cv = " + "B::svref_2object" + "(\\&" + name + "); " +
    "print " + "{$DB::OUT} " + "q[{\"file\":\"]" + ".$cv->FILE" + ".q[\",\"line\":]" +
    ".$cv->START" + "->line" + ".q[}]; " +
    "undef $cv; " + "if ($requiredB) " + "{ delete " + "$INC{'B.pm'}; " + "undef %B::; " +
    "undef $requiredB }"
  }

  /** `clearBreakpoint`: switch to the file, delete the breakpoint at the line,
      and return to the current line. */
  function ClearCommands(path: string, line: int): (cmds: seq<string>)
    ensures |cmds| == 3
  {
    ["f " + path, "B " + IntToString(line), "."]
  }

  /** The commands of clearing every breakpoint of a list, one after the other. */
  function ClearAllCommands(bps: seq<Breakpoint>): seq<string>
    decreases |bps|
  {
    if bps == [] then []
    else ClearAllCommands(bps[..|bps| - 1]) + ClearCommands(bps[|bps| - 1].path, bps[|bps| - 1].line)
  }

  /** Clearing a list of breakpoints issues three commands per breakpoint. */
  lemma {:induction false} ClearAllCommandsLength(bps: seq<Breakpoint>)
    ensures |ClearAllCommands(bps)| == 3 * |bps|
    decreases |bps|
  {
    if bps != [] {
      ClearAllCommandsLength(bps[..|bps| - 1]);
    }
  }

  /** The commands for the `k`-th breakpoint of a list are its three clearing
      commands, in the `k`-th place. */
  lemma {:induction false} ClearAllCommandsAt(bps: seq<Breakpoint>, k: nat)
    requires k < |bps|
    ensures 3 * k + 3 <= |ClearAllCommands(bps)|
    ensures ClearAllCommands(bps)[3 * k..3 * k + 3] == ClearCommands(bps[k].path, bps[k].line)
    decreases |bps|
  {
    var init := bps[..|bps| - 1];
    ClearAllCommandsLength(init);
    if k < |init| {
      ClearAllCommandsAt(init, k);
      ClearAllCommandsEarlier(bps, k);
      assert init[k] == bps[k];
    } else {
      ClearAllCommandsLast(bps, k);
    }
  }

  /** Clearing one more breakpoint leaves the commands of the earlier ones in place. */
  lemma ClearAllCommandsEarlier(bps: seq<Breakpoint>, k: nat)
    requires k < |bps| - 1 && 3 * k + 3 <= |ClearAllCommands(bps[..|bps| - 1])|
    ensures ClearAllCommands(bps)[3 * k..3 * k + 3] == ClearAllCommands(bps[..|bps| - 1])[3 * k..3 * k + 3]
  {
  }

  /** The last breakpoint's commands come last. */
  lemma ClearAllCommandsLast(bps: seq<Breakpoint>, k: nat)
    requires k == |bps| - 1 && |ClearAllCommands(bps[..k])| == 3 * k
    ensures ClearAllCommands(bps)[3 * k..3 * k + 3] == ClearCommands(bps[k].path, bps[k].line)
  {
  }

  /** Clearing a list of breakpoints issues `f <path>`, `B <line>` and `.` for
      each of them, in the order of the list. */
  lemma ClearAllCommandsShape(bps: seq<Breakpoint>)
    ensures |ClearAllCommands(bps)| == 3 * |bps|
    ensures forall k :: 0 <= k < |bps| ==>
      ClearAllCommands(bps)[3 * k..3 * k + 3] == ClearCommands(bps[k].path, bps[k].line)
  {
    ClearAllCommandsLength(bps);
    forall k | 0 <= k < |bps|
      ensures ClearAllCommands(bps)[3 * k..3 * k + 3] == ClearCommands(bps[k].path, bps[k].line)
    {
      ClearAllCommandsAt(bps, k);
    }
  }

  /** Clearing one more breakpoint appends its three commands. */
  lemma ClearAllCommandsSnoc(bps: seq<Breakpoint>, i: nat)
    requires i < |bps|
    ensures ClearAllCommands(bps[..i + 1]) ==
      ClearAllCommands(bps[..i]) + ClearCommands(bps[i].path, bps[i].line)
  {
    assert bps[..i + 1][..i] == bps[..i];
  }

  /** The number of decimal digits at `s[i..]`. */
  function DigitsAt(s: string, i: nat): (j: nat)
    requires i <= |s|
    ensures i <= j <= |s| && AllDigits(s[i..j]) && (j == |s| || !IsDigit(s[j]))
    decreases |s| - i
  {
    if i < |s| && IsDigit(s[i]) then
      var j := DigitsAt(s, i + 1);
      assert s[i..j] == [s[i]] + s[i + 1..j];
      j
    else i
  }

  /** Reading a `b <file>:<line>[ <condition>]` command back into its parts,
      for a file name without a colon and a line number without a sign. */
  function ParseBreakLine(cmd: string): Option<(string, nat, Option<string>)> {
    if !StartsWith(cmd, "b ") then None
    else
      var rest := cmd[2..];
      match FindFrom(rest, ":", 0)
      case None => None
      case Some(k) =>
        match ParseLineSpec(rest[k + 1..])
        case None => None
        case Some(spec) => Some((rest[..k], spec.0, spec.1))
  }

  /** Reading `<line>[ <condition>]`. */
  function ParseLineSpec(text: string): Option<(nat, Option<string>)> {
    var d := DigitsAt(text, 0);
    if d == 0 then None
    else if d == |text| then Some((DigitsValue(text[..d]), None))
    else if text[d] == ' ' then Some((DigitsValue(text[..d]), Some(text[d + 1..])))
    else None
  }

  /** The first `:` of a text that starts with a colon-free file name is the
      one that follows the name. */
  lemma FirstColon(path: string, tail: string)
    requires forall k :: 0 <= k < |path| ==> path[k] != ':'
    requires |tail| > 0 && tail[0] == ':'
    ensures FindFrom(path + tail, ":", 0) == Some(|path|)
  {
    var s := path + tail;
    assert s[|path|..|path| + 1] == [s[|path|]];
    forall k | 0 <= k < |path| ensures !OccursAt(s, ":", k) {
      assert s[k..k + 1] == [path[k]];
    }
    FindFromFirst(s, ":", 0, |path|);
  }

  /** The line and condition of a break command read back as themselves. */
  lemma LineSpecRoundTrip(line: nat, condition: Option<string>)
    ensures ParseLineSpec(NatToString(line) + ConditionSuffix(condition)) == Some((line, condition))
  {
    var digits := NatToString(line);
    var suffix := ConditionSuffix(condition);
    var text := digits + suffix;
    DigitsOver(digits, suffix);
    assert text[..|digits|] == digits;
    NatToStringRoundTrip(line);
    if condition.Some? {
      assert text[|digits|] == ' ';
      assert text[|digits| + 1..] == condition.value;
    }
  }

  /** The break command names its file, line and condition back. */
  lemma BreakLineRoundTrip(path: string, line: nat, condition: Option<string>)
    requires forall k :: 0 <= k < |path| ==> path[k] != ':'
    ensures ParseBreakLine(BreakLineCommand(path, line, condition)) == Some((path, line, condition))
  {
    var spec := NatToString(line) + ConditionSuffix(condition);
    var rest := path + (":" + spec);
    BreakLineCommandParts(path, line, condition);
    AppendSplit("b ", rest);
    FirstColon(path, ":" + spec);
    AppendSplit(path, ":" + spec);
    AppendSplit(":", spec);
    assert rest[|path| + 1..] == (":" + spec)[1..];
    LineSpecRoundTrip(line, condition);
  }

  /** The break command is `b `, the file, `:` and the line specification. */
  lemma BreakLineCommandParts(path: string, line: nat, condition: Option<string>)
    ensures BreakLineCommand(path, line, condition) ==
      "b " + (path + (":" + (NatToString(line) + ConditionSuffix(condition))))
  {
  }

  /** Counting digits stops where a string of digits meets a non-digit. */
  lemma DigitsOver(digits: string, suffix: string)
    requires AllDigits(digits)
    requires suffix == [] || suffix[0] == ' '
    ensures DigitsAt(digits + suffix, 0) == |digits|
  {
    var s := digits + suffix;
    assert forall m :: 0 <= m < |digits| ==> s[m] == digits[m];
    DigitsAtStops(s, 0, |digits|);
  }

  /** Counting digits from `i` stops at the first non-digit. */
  lemma DigitsAtStops(s: string, i: nat, e: nat)
    requires i <= e <= |s|
    requires forall m :: i <= m < e ==> IsDigit(s[m])
    requires e == |s| || !IsDigit(s[e])
    ensures DigitsAt(s, i) == e
    decreases e - i
  {
  }

  // ---------------------------------------------------------------------
  // Breakpoint outcomes

  /** Whether `setBreakpoint` succeeds: a `.pm` file must load (its `require`
      reply has no `Can't locate`), and the `b` reply must not say
      `not breakable`. */
  predicate LineBreakpointAccepted(path: string, requireReply: string, breakReply: string) {
    !(EndsWith(path, ".pm") && Contains(requireReply, "Can't locate")) &&
    !Contains(breakReply, "not breakable")
  }

  /** The commands `setBreakpoint` runs, given the `require` reply: the `b`
      command is issued unless a `.pm` file failed to load. */
  function LineBreakpointCommands(path: string, line: int, condition: Option<string>,
                                  requireReply: string): (cmds: seq<string>)
    ensures |cmds| >= 1
    ensures (cmds[|cmds| - 1] == BreakLineCommand(path, line, condition)) <==>
      !(EndsWith(path, ".pm") && Contains(requireReply, "Can't locate"))
    ensures cmds[0] == RequireFileCommand(path) <==> EndsWith(path, ".pm")
  {
    assert BreakLineCommand(path, line, condition)[0] == 'b';
    assert RequireFileCommand(path)[0] == 'r';
    if !EndsWith(path, ".pm") then [BreakLineCommand(path, line, condition)]
    else if Contains(requireReply, "Can't locate") then [RequireFileCommand(path)]
    else [RequireFileCommand(path), BreakLineCommand(path, line, condition)]
  }

  /** The segments of a sub name, split at `::`. */
  function NameParts(name: string): (parts: seq<string>)
    ensures |parts| >= 1
  {
    Split(name, "::")
  }

  /** The package of a qualified sub name: all segments but the last. */
  function PackageOf(name: string): string {
    var parts := NameParts(name);
    Join(parts[..|parts| - 1], "::")
  }

  /** A qualified name is its package, `::` and a last segment without `::`. */
  lemma PackageOfQualified(name: string)
    requires |NameParts(name)| > 1
    ensures var last := NameParts(name)[|NameParts(name)| - 1];
      name == PackageOf(name) + "::" + last && !Contains(last, "::")
  {
    var parts := NameParts(name);
    var init := parts[..|parts| - 1];
    var last := parts[|parts| - 1];
    assert parts == init + [last];
    JoinSnoc(init, "::", last);
    JoinSplit(name, "::");
    SplitPiecesAvoidSeparator(name, "::");
  }

  /** A name is qualified exactly when it contains `::`. */
  lemma QualifiedIff(name: string)
    ensures |NameParts(name)| > 1 <==> Contains(name, "::")
  {
  }

  /** What `setFunctionBreakpoint` registers and returns, if anything: a
      qualified name's package must load, and the `b` reply must not say
      `not found`; then the sub's location is registered under its name. */
  function FunctionBreakpointOutcome(name: string, requireReply: string, breakReply: string,
                                     location: Location): (r: Option<FunctionBreakpoint>)
    ensures r.Some? ==> r.value.name == name && r.value.path == location.file && r.value.line == location.line
    ensures r.Some? <==>
      !(Contains(name, "::") && Contains(requireReply, "Can't locate")) && !Contains(breakReply, "not found")
  {
    QualifiedIff(name);
    if |NameParts(name)| > 1 && Contains(requireReply, "Can't locate") then None
    else if Contains(breakReply, "not found") then None
    else Some(FunctionBreakpoint(location.file, name, location.line))
  }

  /** The `require` a qualified name's package is loaded with first. */
  function RequireCommands(name: string): seq<string> {
    if |NameParts(name)| > 1 then [RequirePackageCommand(PackageOf(name))] else []
  }

  /** The commands `setFunctionBreakpoint` runs, given the replies. */
  function FunctionBreakpointCommands(name: string, condition: Option<string>,
                                      requireReply: string, breakReply: string): seq<string>
  {
    if |NameParts(name)| > 1 && Contains(requireReply, "Can't locate") then RequireCommands(name)
    else if Contains(breakReply, "not found") then RequireCommands(name) + [BreakSubCommand(name, condition)]
    else RequireCommands(name) + [BreakSubCommand(name, condition), LocateSubCommand(name)]
  }

  // ---------------------------------------------------------------------
  // evaluateVariable

  /** `replace(/^"|"$/g, '')`: drops one leading and one trailing `"`. */
  function StripQuotes(v: string): string {
    var t := if |v| > 0 && v[0] == '"' then v[1..] else v;
    if |t| > 0 && t[|t| - 1] == '"' then t[..|t| - 1] else t
  }

  /** A quoted expression loses exactly its quotes. */
  lemma StripQuotesQuoted(e: string)
    ensures StripQuotes("\"" + e + "\"") == e
  {
  }

  /** An expression without a quote at either end is left alone. */
  lemma StripQuotesUnquoted(e: string)
    requires |e| == 0 || (e[0] != '"' && e[|e| - 1] != '"')
    ensures StripQuotes(e) == e
  {
  }

  /** The sigils `evaluateVariable` recognises: `$ @ % & *` and `\`. */
  predicate HasSigil(v: string) {
    |v| > 0 && v[0] in "$@%&*\\"
  }

  /** The expression `evaluateVariable` works on: the variable without its
      quotes, taken as a hash when it has no sigil. */
  function Normalize(variable: string): (v: string)
    ensures HasSigil(v)
    ensures v == StripQuotes(variable) || v == "%" + StripQuotes(variable)
    ensures v == StripQuotes(variable) <==> HasSigil(StripQuotes(variable))
  {
    var s := StripQuotes(variable);
    if HasSigil(s) then s else "%" + s
  }

  /** The command that shows the value of the normalised expression `v`: for
      a scalar, `x` when the `ref` reply names a reference type and `p` when
      it is blank; for an array, hash, code or glob, `x` on a reference to it;
      otherwise (`\`) `x` on the expression itself. */
  function ShowCommand(v: string, refReply: string): string
    requires HasSigil(v)
  {
    if v[0] == '$' then (if Trim(refReply) != [] then "x " else "p ") + v
    else if v[0] in "@%&*" then "x \\" + v
    else "x " + v
  }

  /** The commands `evaluateVariable` runs: a scalar is probed with `p ref`
      first, then the value is shown. */
  function EvaluationCommands(variable: string, refReply: string): seq<string> {
    var v := Normalize(variable);
    (if v[0] == '$' then ["p ref " + v] else []) + [ShowCommand(v, refReply)]
  }

  /** The command that shows a value names the normalised expression at its
      end; it prints (`p`) exactly a scalar whose `ref` is blank, and it dumps
      through a reference (`x \`) exactly an array, hash, code, glob or
      reference expression. */
  lemma ShowCommandShape(v: string, refReply: string)
    requires HasSigil(v)
    ensures EndsWith(ShowCommand(v, refReply), v)
    ensures StartsWith(ShowCommand(v, refReply), "p ") <==> v[0] == '$' && Trim(refReply) == []
    ensures StartsWith(ShowCommand(v, refReply), "x ") <==> !(v[0] == '$' && Trim(refReply) == [])
    ensures StartsWith(ShowCommand(v, refReply), "x \\") <==> v[0] in "@%&*\\"
  {
    var show := ShowCommand(v, refReply);
    if v[0] == '$' {
      var prefix := if Trim(refReply) != [] then "x " else "p ";
      PrefixedShape(prefix, v);
    } else if v[0] in "@%&*" {
      PrefixedShape("x \\", v);
      assert "x \\"[..2] == "x " && "x \\"[..3] == "x \\";
    } else {
      PrefixedShape("x ", v);
      assert "x "[..2] + [v[0]] == "x \\";
    }
  }

  /** What a command made of a prefix and an expression starts and ends with. */
  lemma PrefixedShape(prefix: string, v: string)
    requires |prefix| >= 2 && |v| >= 1
    ensures EndsWith(prefix + v, v)
    ensures (prefix + v)[..2] == prefix[..2]
    ensures (prefix + v)[..3] == if |prefix| >= 3 then prefix[..3] else prefix[..2] + [v[0]]
  {
  }

  /** Only a scalar is probed first, and then with `p ref` on the normalised
      expression; the last command shows the value. */
  lemma EvaluationCommandsShape(variable: string, refReply: string)
    ensures var v := Normalize(variable);
      var cmds := EvaluationCommands(variable, refReply);
      && (|cmds| == 2 <==> v[0] == '$')
      && |cmds| >= 1 && cmds[|cmds| - 1] == ShowCommand(v, refReply)
      && (|cmds| == 2 ==> cmds[0] == "p ref " + v)
  {
  }

  // ---------------------------------------------------------------------
  // getStackTrace

  /** A stack frame: its id is the index of its line in the `T` output. */
  datatype StackFrame = StackFrame(id: nat, name: string, path: string, line: nat)

  /** What a frame line of the `T` output gives: the sub, the file and the line. */
  datatype FrameLine = FrameLine(sub: string, file: string, line: nat)

  /** The end of the white space (`\s*`) at `s[i..]`. */
  function SpaceEnd(s: string, i: nat): (j: nat)
    requires i <= |s|
    ensures i <= j <= |s| && (j == |s| || !IsSpace(s[j]))
    decreases |s| - i
  {
    if i < |s| && IsSpace(s[i]) then SpaceEnd(s, i + 1) else i
  }

  /** A frame line ends at `s[e]`: `' line `, digits, and only white space
      up to the end. */
  predicate LineTailAt(s: string, e: nat)
    requires e <= |s|
  {
    OccursAt(s, "' line ", e) && DigitsAt(s, e + 7) > e + 7 && SpaceEnd(s, DigitsAt(s, e + 7)) == |s|
  }

  /** The text that follows the sub's name in a frame line. */
  const CalledFrom: string := " called from file '"

  /** Matching one line of the `T` output against
      `^\s*[.$@] = (\S+) called from file '(.+?)' line (\d+)\s*$`. */
  function ParseFrameLine(s: string): Option<FrameLine> {
    ScanLine(s, 0)
  }

  /** The match from `s[i]` on, past the leading white space. */
  function ScanLine(s: string, i: nat): Option<FrameLine>
    requires i <= |s|
    decreases |s| - i
  {
    if i < |s| && IsSpace(s[i]) then ScanLine(s, i + 1)
    else if i < |s| && s[i] in ".$@" && OccursAt(s, " = ", i + 1) then ScanSub(s, i + 4, i + 4)
    else None
  }

  /** The match from the sub's name on: the name began at `s[i]`, and
      `s[i..j]` has no white space. */
  function ScanSub(s: string, i: nat, j: nat): Option<FrameLine>
    requires i <= j <= |s|
    decreases |s| - j
  {
    if j < |s| && !IsSpace(s[j]) then ScanSub(s, i, j + 1)
    else if j == i || !OccursAt(s, CalledFrom, j) then None
    else
      match ScanFile(s, j + |CalledFrom|, j + |CalledFrom| + 1)
      case None => None
      case Some(fileLine) => Some(FrameLine(s[i..j], fileLine.0, fileLine.1))
  }

  /** The match from the file name on: the lazy `(.+?)` began at `s[k]`, and
      the least end `e` at which the line's tail begins is searched for, as
      long as no line terminator has been passed. */
  function ScanFile(s: string, k: nat, e: nat): Option<(string, nat)>
    requires k < e
    decreases |s| + 1 - e
  {
    if e > |s| || IsLineTerminator(s[e - 1]) then None
    else if LineTailAt(s, e) then Some((s[k..e], DigitsValue(s[e + 7..DigitsAt(s, e + 7)])))
    else ScanFile(s, k, e + 1)
  }

  /** A frame line as the debugger prints it. */
  function FormatFrameLine(sigil: char, sub: string, file: string, line: nat): string {
    [sigil] + " = " + sub + CalledFrom + file + "' line " + NatToString(line)
  }

  /** No tail of a frame line begins before the quote that closes the file. */
  lemma NoTailBeforeQuote(s: string, e: nat, m: nat)
    requires m < e < |s| && s[e] == '\''
    ensures !LineTailAt(s, m)
  {
    if e < m + 7 && m + 7 <= |s| {
      assert s[m..m + 7][e - m] == '\'';
    } else if OccursAt(s, "' line ", m) {
      DigitsStop(s, m + 7, e);
      NoSpaceStop(s, DigitsAt(s, m + 7), e);
    }
  }

  /** Digits cannot run past a character that is not a digit. */
  lemma DigitsStop(s: string, i: nat, e: nat)
    requires i <= e < |s| && !IsDigit(s[e])
    ensures DigitsAt(s, i) <= e
    decreases |s| - i
  {
  }

  /** White space cannot run past a character that is not white space. */
  lemma {:induction false} NoSpaceStop(s: string, i: nat, e: nat)
    requires i <= e < |s| && !IsSpace(s[e])
    ensures SpaceEnd(s, i) <= e
    decreases |s| - i
  {
    if i < e && IsSpace(s[i]) {
      NoSpaceStop(s, i + 1, e);
    }
  }

  /** The lazy search for the file name ends at the first tail. */
  lemma {:induction false} ScanFileFinds(s: string, k: nat, first: nat, e: nat)
    requires k < first <= e <= |s|
    requires forall m :: first - 1 <= m < e ==> !IsLineTerminator(s[m])
    requires forall m :: first <= m < e ==> !LineTailAt(s, m)
    requires LineTailAt(s, e)
    ensures ScanFile(s, k, first) == Some((s[k..e], DigitsValue(s[e + 7..DigitsAt(s, e + 7)])))
    decreases e - first
  {
    if first < e {
      ScanFileFinds(s, k, first + 1, e);
    }
  }

  /** Where the parts of `<file>' line <n>` lie in a line that ends with it. */
  lemma FileLineLayout(s: string, k: nat, file: string, line: nat)
    requires k <= |s|
    requires forall m :: 0 <= m < |file| ==> !IsLineTerminator(file[m])
    requires s[k..] == file + ("' line " + NatToString(line))
    ensures var e := k + |file|;
      && e + 7 < |s| && s[k..e] == file && s[e] == '\''
      && OccursAt(s, "' line ", e) && s[e + 7..] == NatToString(line)
      && forall m :: k <= m < e ==> !IsLineTerminator(s[m])
  {
  }

  /** In a line that ends with `<file>' line <n>`, the line's tail begins at
      the quote after the file name and nowhere before it, and the line
      number's digits run to the end. */
  lemma FileTail(s: string, k: nat, file: string, line: nat)
    requires k <= |s|
    requires |file| > 0 && forall m :: 0 <= m < |file| ==> !IsLineTerminator(file[m])
    requires s[k..] == file + ("' line " + NatToString(line))
    ensures var e := k + |file|;
      && e + 7 <= |s| && s[k..e] == file && s[e + 7..] == NatToString(line)
      && DigitsAt(s, e + 7) == |s| && LineTailAt(s, e)
      && (forall m :: k <= m < e ==> !IsLineTerminator(s[m]))
      && (forall m :: k + 1 <= m < e ==> !LineTailAt(s, m))
  {
    var e := k + |file|;
    FileLineLayout(s, k, file, line);
    forall m | e + 7 <= m < |s| ensures IsDigit(s[m]) {
      assert s[m] == s[e + 7..][m - e - 7];
    }
    DigitsAtStops(s, e + 7, |s|);
    forall m | k + 1 <= m < e ensures !LineTailAt(s, m) {
      NoTailBeforeQuote(s, e, m);
    }
  }

  /** A file name and line number read back as themselves. */
  lemma FileLineRoundTrip(s: string, k: nat, file: string, line: nat)
    requires k <= |s|
    requires |file| > 0 && forall m :: 0 <= m < |file| ==> !IsLineTerminator(file[m])
    requires s[k..] == file + ("' line " + NatToString(line))
    ensures ScanFile(s, k, k + 1) == Some((file, line))
  {
    var e := k + |file|;
    FileTail(s, k, file, line);
    ScanFileFinds(s, k, k + 1, e);
    assert s[e + 7..|s|] == s[e + 7..];
    NatToStringRoundTrip(line);
  }

  /** Where the parts of `<sub> called from file '<rest>` lie in a line that
      ends with it. */
  lemma CallLayout(s: string, i: nat, sub: string, tail: string)
    requires i <= |s|
    requires forall m :: 0 <= m < |sub| ==> !IsSpace(sub[m])
    requires s[i..] == sub + (CalledFrom + tail)
    ensures var j := i + |sub|;
      && j + |CalledFrom| <= |s| && s[i..j] == sub && s[j] == ' '
      && OccursAt(s, CalledFrom, j) && s[j + |CalledFrom|..] == tail
      && forall m :: i <= m < j ==> !IsSpace(s[m])
  {
  }

  /** The sub's name ends at the space before `called`, and the rest is
      matched from the file name on. */
  lemma ScanSubAt(s: string, i: nat, j: nat, file: string, line: nat)
    requires i < j && j + |CalledFrom| <= |s| && s[j] == ' ' && OccursAt(s, CalledFrom, j)
    requires forall m :: i <= m < j ==> !IsSpace(s[m])
    requires ScanFile(s, j + |CalledFrom|, j + |CalledFrom| + 1) == Some((file, line))
    ensures ScanSub(s, i, i) == Some(FrameLine(s[i..j], file, line))
  {
    ScanSubOver(s, i, i, j);
  }

  /** Scanning a word skips to its end. */
  lemma {:induction false} ScanSubOver(s: string, i: nat, j0: nat, j: nat)
    requires i <= j0 <= j < |s|
    requires forall m :: j0 <= m < j ==> !IsSpace(s[m])
    ensures ScanSub(s, i, j0) == ScanSub(s, i, j)
    decreases j - j0
  {
    if j0 < j {
      ScanSubOver(s, i, j0 + 1, j);
    }
  }

  /** A sub name, file name and line number read back as themselves. */
  lemma CallRoundTrip(s: string, i: nat, sub: string, file: string, line: nat)
    requires i <= |s|
    requires |sub| > 0 && forall m :: 0 <= m < |sub| ==> !IsSpace(sub[m])
    requires |file| > 0 && forall m :: 0 <= m < |file| ==> !IsLineTerminator(file[m])
    requires s[i..] == sub + (CalledFrom + (file + ("' line " + NatToString(line))))
    ensures ScanSub(s, i, i) == Some(FrameLine(sub, file, line))
  {
    var j := i + |sub|;
    CallLayout(s, i, sub, file + ("' line " + NatToString(line)));
    FileLineRoundTrip(s, j + |CalledFrom|, file, line);
    assert i < j && j + |CalledFrom| <= |s|;
    assert s[j] == ' ' && OccursAt(s, CalledFrom, j);
    assert forall m :: i <= m < j ==> !IsSpace(s[m]);
    assert ScanFile(s, j + |CalledFrom|, j + |CalledFrom| + 1) == Some((file, line));
    ScanSubAt(s, i, j, file, line);
    assert s[i..j] == sub;
  }

  /** A frame line is its sigil, ` = ` and the call. */
  lemma FrameLineLayout(sigil: char, sub: string, file: string, line: nat)
    ensures var s := FormatFrameLine(sigil, sub, file, line);
      && |s| >= 4 && s[0] == sigil && s[1..4] == " = "
      && s[4..] == sub + (CalledFrom + (file + ("' line " + NatToString(line))))
  {
    var call := sub + (CalledFrom + (file + ("' line " + NatToString(line))));
    var s := FormatFrameLine(sigil, sub, file, line);
    var a, t := [sigil] + " = ", NatToString(line);
    AppendAssoc(a + sub + CalledFrom + file, "' line ", t);
    AppendAssoc(a + sub + CalledFrom, file, "' line " + t);
    AppendAssoc(a + sub, CalledFrom, file + ("' line " + t));
    AppendAssoc(a, sub, CalledFrom + (file + ("' line " + t)));
    AppendAssoc([sigil], " = ", call);
    assert s == [sigil] + (" = " + call);
    AppendSplit([sigil], " = " + call);
    AppendSplit(" = ", call);
    assert s[1..4] == s[1..][..3];
    assert s[4..] == s[1..][3..];
  }

  /** A line that starts with a sigil and ` = ` is parsed from the sub's name on. */
  lemma ParseFrameLineCall(s: string)
    requires |s| >= 4 && s[0] in ".$@" && s[1..4] == " = "
    ensures ParseFrameLine(s) == ScanSub(s, 4, 4)
  {
  }

  /** Parsing a frame line the debugger printed gives back its sub, file and
      line, whenever the sub is a non-empty word and the file is a non-empty
      text on one line. */
  lemma FrameLineRoundTrip(sigil: char, sub: string, file: string, line: nat)
    requires sigil in ".$@"
    requires |sub| > 0 && forall m :: 0 <= m < |sub| ==> !IsSpace(sub[m])
    requires |file| > 0 && forall m :: 0 <= m < |file| ==> !IsLineTerminator(file[m])
    ensures ParseFrameLine(FormatFrameLine(sigil, sub, file, line)) == Some(FrameLine(sub, file, line))
  {
    var s := FormatFrameLine(sigil, sub, file, line);
    FrameLineLayout(sigil, sub, file, line);
    ParseFrameLineCall(s);
    CallRoundTrip(s, 4, sub, file, line);
  }

  /** The parse of every line of the `T` output. */
  function ParsedLines(lines: seq<string>): (parsed: seq<Option<FrameLine>>)
    ensures |parsed| == |lines|
    ensures forall k :: 0 <= k < |lines| ==> parsed[k] == ParseFrameLine(lines[k])
  {
    seq(|lines|, k requires 0 <= k < |lines| => ParseFrameLine(lines[k]))
  }

  /** The frame, if any, of line `k`. */
  function FrameAt(parsed: seq<Option<FrameLine>>, k: nat): (r: seq<StackFrame>)
    requires k < |parsed|
  {
    match parsed[k]
    case None => []
    case Some(f) => [StackFrame(k, f.sub, f.file, f.line)]
  }

  /** The frames of the first `n` lines, in line order. */
  function FramesUpTo(parsed: seq<Option<FrameLine>>, n: nat): seq<StackFrame>
    requires n <= |parsed|
    decreases n
  {
    if n == 0 then [] else FramesUpTo(parsed, n - 1) + FrameAt(parsed, n - 1)
  }

  /** The stack trace of a `T` reply: one frame per frame line, in order. */
  function StackTrace(stack: string): seq<StackFrame> {
    var parsed := ParsedLines(Split(stack, "\n"));
    FramesUpTo(parsed, |parsed|)
  }

  /** Each frame of the first `n` lines comes from the line its id names,
      the ids increase, and every frame line among them yields a frame. */
  lemma {:induction false} FramesUpToSound(parsed: seq<Option<FrameLine>>, n: nat)
    requires n <= |parsed|
    ensures forall f :: f in FramesUpTo(parsed, n) ==>
      f.id < n && parsed[f.id] == Some(FrameLine(f.name, f.path, f.line))
    ensures forall a, b :: 0 <= a < b < |FramesUpTo(parsed, n)| ==>
      FramesUpTo(parsed, n)[a].id < FramesUpTo(parsed, n)[b].id
    ensures forall k :: 0 <= k < n && parsed[k].Some? ==>
      exists f :: f in FramesUpTo(parsed, n) && f.id == k
    decreases n
  {
    if n > 0 {
      FramesUpToSound(parsed, n - 1);
      var prev := FramesUpTo(parsed, n - 1);
      var all := FramesUpTo(parsed, n);
      assert all == prev + FrameAt(parsed, n - 1);
      forall k | 0 <= k < n && parsed[k].Some?
        ensures exists f :: f in all && f.id == k
      {
        if k == n - 1 {
          assert FrameAt(parsed, k)[0] in all;
        } else {
          var f :| f in prev && f.id == k;
          assert f in all;
        }
      }
    }
  }

  /** `getStackTrace` keeps one frame per line that matches the frame
      pattern, in order, with the line's index as its id, and skips the rest. */
  lemma StackTraceFrames(stack: string)
    ensures var lines := Split(stack, "\n");
      var trace := StackTrace(stack);
      && (forall f :: f in trace ==>
            f.id < |lines| && ParseFrameLine(lines[f.id]) == Some(FrameLine(f.name, f.path, f.line)))
      && (forall a, b :: 0 <= a < b < |trace| ==> trace[a].id < trace[b].id)
      && (forall k :: 0 <= k < |lines| && ParseFrameLine(lines[k]).Some? ==>
            exists f :: f in trace && f.id == k)
  {
    var lines := Split(stack, "\n");
    FramesUpToSound(ParsedLines(lines), |lines|);
  }

  /** `getStackTrace`'s loop over the lines of the `T` reply. */
  method ParseStackTrace(stack: string) returns (trace: seq<StackFrame>)
    ensures trace == StackTrace(stack)
  {
    var lines := Split(stack, "\n");
    ghost var parsed := ParsedLines(lines);
    trace := [];
    for index := 0 to |lines|
      invariant trace == FramesUpTo(parsed, index)
    {
      var frameLine := ParseFrameLine(lines[index]);
      assert frameLine == parsed[index];
      if frameLine.Some? {
        var f := frameLine.value;
        trace := trace + [StackFrame(index, f.sub, f.file, f.line)];
      }
    }
  }

  // ---------------------------------------------------------------------
  // Replies read as values

  /** `Number(reply.trim())` for the pid: blank is 0, a decimal number is its
      value, and anything else is not a pid (`None`). */
  function PidOf(reply: string): (r: Option<nat>)
    ensures Trim(reply) == [] ==> r == Some(0)
    ensures r.Some? && Trim(reply) != [] ==> AllDigits(Trim(reply)) && r.value == DigitsValue(Trim(reply))
  {
    var t := Trim(reply);
    if t == [] then Some(0)
    else if AllDigits(t) then Some(DigitsValue(t))
    else None
  }

  /** The pid the debuggee prints is read back as itself. */
  lemma PidRoundTrip(pid: nat, before: string, after: string)
    requires AllSpace(before) && AllSpace(after)
    ensures PidOf(before + NatToString(pid) + after) == Some(pid)
  {
    var digits := NatToString(pid);
    TrimAround(before, digits, after);
    NatToStringRoundTrip(pid);
  }

  // ---------------------------------------------------------------------
  // The runtime object

  /** The commands `setStartupOptions` runs: let the program exit normally,
      and stop saving the command history. */
  const StartupCommands: seq<string> := ["o inhibit_exit=0", "undef " + "${$DB::optionVars" + "{HistFile}}"]

  /** The command that prints the lines of the current file from line 1 on. */
  const SourceCommand: string := "p join '', " + "@DB::dbline" + "[1 .. " + "$#DB::dbline]"

  class PerlRuntime {
    var breakpoints: seq<Breakpoint>
    var functionBreakpoints: seq<FunctionBreakpoint>
    /** The commands given to `runCommand`, in order. */
    var issued: seq<string>

    constructor ()
      ensures breakpoints == [] && functionBreakpoints == [] && issued == []
    {
      breakpoints := [];
      functionBreakpoints := [];
      issued := [];
    }

    /** `runCommand`: the command is queued and its response is `reply`. */
    method RunCommand(command: string, reply: string) returns (response: string)
      modifies this
      ensures issued == old(issued) + [command] && response == reply
      ensures breakpoints == old(breakpoints) && functionBreakpoints == old(functionBreakpoints)
    {
      issued := issued + [command];
      response := reply;
    }

    method SetStartupOptions()
      modifies this
      ensures issued == old(issued) + StartupCommands
      ensures breakpoints == old(breakpoints) && functionBreakpoints == old(functionBreakpoints)
    {
      issued := issued + StartupCommands;
    }

    /** `getPid`: `p $$`, read as a number. */
    method GetPid(reply: string) returns (pid: Option<nat>)
      modifies this
      ensures issued == old(issued) + ["p $$"] && pid == PidOf(reply)
      ensures breakpoints == old(breakpoints) && functionBreakpoints == old(functionBreakpoints)
    {
      var r := RunCommand("p $$", reply);
      pid := PidOf(r);
    }

    /** `getName`: `p $0`, trimmed. */
    method GetName(reply: string) returns (name: string)
      modifies this
      ensures issued == old(issued) + ["p $0"] && name == Trim(reply)
      ensures breakpoints == old(breakpoints) && functionBreakpoints == old(functionBreakpoints)
    {
      var r := RunCommand("p $0", reply);
      name := Trim(r);
    }

    /** `getHostname`: the output of `hostname` on the debuggee's machine, trimmed. */
    method GetHostname(reply: string) returns (hostname: string)
      modifies this
      ensures issued == old(issued) + ["p `hostname`"] && hostname == Trim(reply)
      ensures breakpoints == old(breakpoints) && functionBreakpoints == old(functionBreakpoints)
    {
      var r := RunCommand("p `hostname`", reply);
      hostname := Trim(r);
    }

    /** `getSource`: switch to the file and print its lines. */
    method GetSource(path: string, fileReply: string, sourceReply: string) returns (content: string)
      modifies this
      ensures issued == old(issued) + ["f " + path, SourceCommand] && content == sourceReply
      ensures breakpoints == old(breakpoints) && functionBreakpoints == old(functionBreakpoints)
    {
      var _ := RunCommand("f " + path, fileReply);
      content := RunCommand(SourceCommand, sourceReply);
    }

    /** `continue`, `next`, `stepInto` and `stepOut`: `c`, `n`, `s` and `r`. */
    method Resume(command: string, reply: string) returns (response: string)
      requires command in ["c", "n", "s", "r"]
      modifies this
      ensures issued == old(issued) + [command] && response == reply
      ensures breakpoints == old(breakpoints) && functionBreakpoints == old(functionBreakpoints)
    {
      response := RunCommand(command, reply);
    }

    /** `setBreakpoint`: a `.pm` file is loaded first; the breakpoint is
      registered only when both replies allow it. */
    method SetBreakpoint(path: string, line: int, condition: Option<string>,
                         requireReply: string, breakReply: string) returns (ok: bool)
      modifies this
      ensures ok == LineBreakpointAccepted(path, requireReply, breakReply)
      ensures breakpoints == if ok then old(breakpoints) + [Breakpoint(path, line)] else old(breakpoints)
      ensures functionBreakpoints == old(functionBreakpoints)
      ensures issued == old(issued) + LineBreakpointCommands(path, line, condition, requireReply)
    {
      if EndsWith(path, ".pm") {
        var requireResult := RunCommand(RequireFileCommand(path), requireReply);
        if Contains(requireResult, "Can't locate") {
          return false;
        }
      }
      var breakResult := RunCommand(BreakLineCommand(path, line, condition), breakReply);
      if Contains(breakResult, "not breakable") {
        return false;
      }
      breakpoints := breakpoints + [Breakpoint(path, line)];
      ok := true;
    }

    /** `setFunctionBreakpoint`: a qualified name's package is loaded first;
      when the `b` command takes, the sub's location is asked for and the
      breakpoint registered there. */
    method SetFunctionBreakpoint(name: string, condition: Option<string>, requireReply: string,
                                 breakReply: string, location: Location)
      returns (result: Option<FunctionBreakpoint>)
      modifies this
      ensures result == FunctionBreakpointOutcome(name, requireReply, breakReply, location)
      ensures functionBreakpoints ==
        if result.Some? then old(functionBreakpoints) + [result.value] else old(functionBreakpoints)
      ensures breakpoints == old(breakpoints)
      ensures issued == old(issued) + FunctionBreakpointCommands(name, condition, requireReply, breakReply)
    {
      var parts := NameParts(name);
      if |parts| > 1 {
        var requireResult := RunCommand(RequirePackageCommand(PackageOf(name)), requireReply);
        if Contains(requireResult, "Can't locate") {
          return None;
        }
      }
      var breakResult := RunCommand(BreakSubCommand(name, condition), breakReply);
      if Contains(breakResult, "not found") {
        return None;
      }
      var _ := RunCommand(LocateSubCommand(name), "");
      var bp := FunctionBreakpoint(location.file, name, location.line);
      functionBreakpoints := functionBreakpoints + [bp];
      result := Some(bp);
    }

    /** `clearBreakpoint`. */
    method ClearBreakpoint(path: string, line: int)
      modifies this
      ensures issued == old(issued) + ClearCommands(path, line)
      ensures breakpoints == old(breakpoints) && functionBreakpoints == old(functionBreakpoints)
    {
      issued := issued + ClearCommands(path, line);
    }

    /** `clearAllBreakpoints`: clears each line breakpoint in registry order,
      then empties the line registry; the function registry is untouched. */
    method ClearAllBreakpoints()
      modifies this
      ensures issued == old(issued) + ClearAllCommands(old(breakpoints))
      ensures breakpoints == [] && functionBreakpoints == old(functionBreakpoints)
    {
      var bps := breakpoints;
      for i := 0 to |bps|
        invariant issued == old(issued) + ClearAllCommands(bps[..i])
        invariant breakpoints == bps && functionBreakpoints == old(functionBreakpoints)
      {
        ClearAllCommandsSnoc(bps, i);
        AppendAssoc(old(issued), ClearAllCommands(bps[..i]), ClearCommands(bps[i].path, bps[i].line));
        ClearBreakpoint(bps[i].path, bps[i].line);
      }
      assert bps[..|bps|] == bps;
      breakpoints := [];
    }

    /** `clearAllFunctionBreakpoints`: the same for the function registry. */
    method ClearAllFunctionBreakpoints()
      modifies this
      ensures issued == old(issued) + ClearAllCommands(Locations(old(functionBreakpoints)))
      ensures functionBreakpoints == [] && breakpoints == old(breakpoints)
    {
      var fbs := functionBreakpoints;
      var bps := Locations(fbs);
      for i := 0 to |fbs|
        invariant issued == old(issued) + ClearAllCommands(bps[..i])
        invariant breakpoints == old(breakpoints) && functionBreakpoints == fbs
      {
        ClearAllCommandsSnoc(bps, i);
        AppendAssoc(old(issued), ClearAllCommands(bps[..i]), ClearCommands(bps[i].path, bps[i].line));
        ClearBreakpoint(fbs[i].path, fbs[i].line);
      }
      assert bps[..|bps|] == bps;
      functionBreakpoints := [];
    }

    /** `getStackTrace`: `T`, one frame per frame line of the reply. */
    method GetStackTrace(stack: string) returns (trace: seq<StackFrame>)
      modifies this
      ensures issued == old(issued) + ["T"] && trace == StackTrace(stack)
      ensures breakpoints == old(breakpoints) && functionBreakpoints == old(functionBreakpoints)
    {
      var reply := RunCommand("T", stack);
      trace := ParseStackTrace(reply);
    }

    /** `evaluateVariable`: `refReply` answers the `p ref` probe of a scalar,
      `reply` the command that shows the value. */
    method EvaluateVariable(variable: string, refReply: string, reply: string) returns (result: string)
      modifies this
      ensures issued == old(issued) + EvaluationCommands(variable, refReply) && result == reply
      ensures breakpoints == old(breakpoints) && functionBreakpoints == old(functionBreakpoints)
    {
      var v := Normalize(variable);
      if v[0] == '$' {
        var ref := RunCommand("p ref " + v, refReply);
        if |Trim(ref)| > 0 {
          result := RunCommand("x " + v, reply);
        } else {
          result := RunCommand("p " + v, reply);
        }
        return;
      }
      if v[0] in "@%&*" {
        result := RunCommand("x \\" + v, reply);
      } else {
        result := RunCommand("x " + v, reply);
      }
    }
  }

  /** A function breakpoint as the `PerlBreakpoint` that `clearBreakpoint` takes. */
  function Locations(fbs: seq<FunctionBreakpoint>): (bps: seq<Breakpoint>)
    ensures |bps| == |fbs|
    ensures forall k :: 0 <= k < |fbs| ==> bps[k] == Breakpoint(fbs[k].path, fbs[k].line)
  {
    seq(|fbs|, k requires 0 <= k < |fbs| => Breakpoint(fbs[k].path, fbs[k].line))
  }
}
