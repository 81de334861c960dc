/** Response framing for the perl5db REPL stream (client/src/perlRuntime.ts:33-53).

    The debuggee prints, after every command, its output followed by a prompt
    such as `  DB<3> `, `[pid=10->11] DB<<4>> ` or `[2] DB<5> `. The runtime
    keeps everything it has received in a buffer and matches it against one
    regular expression: skip anything up to the first prompt that is followed
    by a space, capture (lazily) everything after it up to the next place where
    an optional newline, at most two spaces and another prompt begin, and remove
    the matched prefix from the buffer.

    This module states that pattern as a small grammar and a search with the
    same leftmost / shortest-capture choices the regular expression makes:

      prompt   = [ "[pid=" digits ("->" digits)+ "]" ws* ] [ "[" digits "]" ws* ]
                 "DB" ( "<<" | "<" ) digits ">" [ ">" ]
      opening  = prompt " "
      boundary = [ "\n" ] ( "" | " " | "  " ) prompt

    Each optional part of a prompt starts with a character (`[pid=`, `[` and a
    digit, `D`) that no later part can start with, and every repetition is
    followed by a character it cannot consume, so parsing greedily without
    backtracking accepts exactly what the regular expression accepts. */
module Framing {
  import opened Text

  /** `t` has the character `c` at index `i`. */
  predicate CharAt(t: string, i: nat, c: char) {
    i < |t| && t[i] == c
  }

  /** Where a reader of a prompt stands: the parts of a prompt are read one
      after the other, each optional part skipped when its first character is
      absent. `links` counts the `digits->` groups of the pid chain read so far
      and `digits` says whether the current number has a digit yet. */
  datatype Reading =
    | Start
    | PidNumber(links: nat, digits: bool)
    | PidSpace
    | TidOpen
    | TidNumber(digits: bool)
    | TidSpace
    | Marker
    | MarkerNumber(digits: bool)

  /** How many parts of the prompt are still ahead; the steps that read no
      character move on to a later part. */
  function PartsLeft(q: Reading): nat {
    match q
    case Start => 5
    case PidNumber(_, _) => 4
    case PidSpace => 4
    case TidOpen => 3
    case TidNumber(_) => 2
    case TidSpace => 2
    case Marker => 1
    case MarkerNumber(_) => 0
  }

  /** The outcome of one step of reading a prompt: the reading is over, with
      the end of the prompt or without a prompt, or it goes on from `pos` in
      state `state`. */
  datatype Stepped = Done(end: Option<nat>) | Next(pos: nat, state: Reading)

  /** One step of reading a prompt from `t[i]` in state `q`. From `Start` the
      steps read `[pid=` `(\d+->)+\d+` `]` `\s*`, then `[` `\d+` `]` `\s*`,
      then `DB<` or `DB<<`, `\d+`, `>` and an optional `>`; every step reads a
      character or moves on to a later part. */
  function Step(t: string, i: nat, q: Reading): (r: Stepped)
    requires i <= |t|
    ensures r.Done? && r.end.Some? ==> i < r.end.value <= |t|
    ensures r.Next? ==> i <= r.pos <= |t| && (i < r.pos || PartsLeft(r.state) < PartsLeft(q))
  {
    match q
    case Start =>
      if CharAt(t, i, '[') && CharAt(t, i + 1, 'p') && CharAt(t, i + 2, 'i') &&
         CharAt(t, i + 3, 'd') && CharAt(t, i + 4, '=')
      then Next(i + 5, PidNumber(0, false))
      else Next(i, TidOpen)
    case PidNumber(links, digits) =>
      if i < |t| && IsDigit(t[i]) then Next(i + 1, PidNumber(links, true))
      else if digits && CharAt(t, i, '-') && CharAt(t, i + 1, '>') then Next(i + 2, PidNumber(links + 1, false))
      else if digits && links > 0 && CharAt(t, i, ']') then Next(i + 1, PidSpace)
      else Done(None)
    case PidSpace =>
      if i < |t| && IsSpace(t[i]) then Next(i + 1, PidSpace) else Next(i, TidOpen)
    case TidOpen =>
      if CharAt(t, i, '[') then Next(i + 1, TidNumber(false)) else Next(i, Marker)
    case TidNumber(digits) =>
      if i < |t| && IsDigit(t[i]) then Next(i + 1, TidNumber(true))
      else if digits && CharAt(t, i, ']') then Next(i + 1, TidSpace)
      else Done(None)
    case TidSpace =>
      if i < |t| && IsSpace(t[i]) then Next(i + 1, TidSpace) else Next(i, Marker)
    case Marker =>
      if CharAt(t, i, 'D') && CharAt(t, i + 1, 'B') && CharAt(t, i + 2, '<') then
        Next(if CharAt(t, i + 3, '<') then i + 4 else i + 3, MarkerNumber(false))
      else Done(None)
    case MarkerNumber(digits) =>
      if i < |t| && IsDigit(t[i]) then Next(i + 1, MarkerNumber(true))
      else if digits && CharAt(t, i, '>') then Done(Some(if CharAt(t, i + 1, '>') then i + 2 else i + 1))
      else Done(None)
  }

  /** The end of the rest of a prompt read from `t[i]` in state `q`. */
  function Read(t: string, i: nat, q: Reading): (r: Option<nat>)
    requires i <= |t|
    ensures r.Some? ==> i < r.value <= |t|
    decreases |t| - i, PartsLeft(q)
  {
    match Step(t, i, q)
    case Done(e) => e
    case Next(k, q') => Read(t, k, q')
  }

  /** The end of a prompt that begins at `t[i]`, if one does. */
  function PromptEnd(t: string, i: nat): (r: Option<nat>)
    requires i <= |t|
    ensures r.Some? ==> i < r.value <= |t|
  {
    Read(t, i, Start)
  }

  /** The end of the prompt-and-space that opens a response at `s[i]`. */
  function OpeningEnd(s: string, i: nat): (r: Option<nat>)
    requires i <= |s|
    ensures r.Some? ==> i < r.value <= |s| && s[r.value - 1] == ' '
  {
    match PromptEnd(s, i)
    case Some(e) => if e < |s| && s[e] == ' ' then Some(e + 1) else None
    case None => None
  }

  /** Where the prompt of a boundary at `s[j]` would begin: after an optional
      newline and at most two spaces. */
  function BoundaryPromptPos(s: string, j: nat): (k: nat)
    requires j <= |s|
    ensures j <= k <= |s|
  {
    var k := if CharAt(s, j, '\n') then j + 1 else j;
    if CharAt(s, k, ' ') && CharAt(s, k + 1, ' ') then k + 2 else if CharAt(s, k, ' ') then k + 1 else k
  }

  /** The lookahead that ends a response holds at `s[j]`: an optional newline,
      at most two spaces and a prompt begin there. */
  predicate BoundaryAt(s: string, j: nat)
    requires j <= |s|
  {
    PromptEnd(s, BoundaryPromptPos(s, j)).Some?
  }

  /** A string that begins with the lookahead that ends a response. */
  predicate Boundary(t: string) {
    BoundaryAt(t, 0)
  }

  /** The first position at or after `from` where a boundary begins. */
  function FirstBoundary(s: string, from: nat): (r: Option<nat>)
    requires from <= |s|
    ensures r.Some? ==> from <= r.value < |s| && BoundaryAt(s, r.value)
    ensures r.Some? ==> forall j :: from <= j < r.value ==> !BoundaryAt(s, j)
    ensures r.None? ==> forall j :: from <= j <= |s| ==> !BoundaryAt(s, j)
    decreases |s| - from
  {
    if from == |s| then None
    else if BoundaryAt(s, from) then Some(from)
    else FirstBoundary(s, from + 1)
  }

  /** The response pattern can match with its opening prompt at `s[i]`: an
      opening is there and a boundary follows it somewhere. */
  predicate MatchesAt(s: string, i: nat)
    requires i <= |s|
  {
    OpeningEnd(s, i).Some? && FirstBoundary(s, OpeningEnd(s, i).value).Some?
  }

  /** A match: the opening prompt begins at `prompt`, the captured text is
      `s[start..end]`, and the boundary that closes it begins at `end`. */
  datatype Span = Span(prompt: nat, start: nat, end: nat)

  /** The leftmost match that begins at or after `from`, with the shortest capture. */
  function FindMatch(s: string, from: nat): (r: Option<Span>)
    requires from <= |s|
    ensures r.Some? ==>
      && from <= r.value.prompt <= |s| && MatchesAt(s, r.value.prompt)
      && Some(r.value.start) == OpeningEnd(s, r.value.prompt)
      && Some(r.value.end) == FirstBoundary(s, r.value.start)
    decreases |s| - from
  {
    if MatchesAt(s, from) then
      var start := OpeningEnd(s, from).value;
      Some(Span(from, start, FirstBoundary(s, start).value))
    else if from == |s| then None
    else FindMatch(s, from + 1)
  }

  /** The match found is the leftmost one. */
  lemma {:induction false} FindMatchLeftmost(s: string, from: nat)
    requires from <= |s|
    ensures FindMatch(s, from).Some? ==>
      forall i :: from <= i < FindMatch(s, from).value.prompt ==> !MatchesAt(s, i)
    ensures FindMatch(s, from).None? ==> forall i :: from <= i <= |s| ==> !MatchesAt(s, i)
    decreases |s| - from
  {
    if !MatchesAt(s, from) && from < |s| {
      FindMatchLeftmost(s, from + 1);
    }
  }

  /** What one match of the response pattern yields: the captured response
      text, and the buffer that remains once the matched prefix is removed. */
  datatype Framed = Framed(text: string, rest: string)

  /** `buffer.match(regex)` followed by `buffer.replace(regex, '')`: the text
      captured by the leftmost match and what is left of the buffer after it. */
  function Frame(buffer: string): (r: Option<Framed>)
    ensures r.Some? ==> |r.value.text| + |r.value.rest| < |buffer|
  {
    match FindMatch(buffer, 0)
    case None => None
    case Some(m) => Some(Framed(buffer[m.start..m.end], buffer[m.end..]))
  }

  /** A response is framed exactly when the pattern matches somewhere in the buffer. */
  lemma FrameSomeIff(buffer: string)
    ensures Frame(buffer).Some? <==> exists i :: 0 <= i <= |buffer| && MatchesAt(buffer, i)
  {
    var m := FindMatch(buffer, 0);
    FindMatchLeftmost(buffer, 0);
    if m.Some? {
      assert MatchesAt(buffer, m.value.prompt);
    }
  }

  /** The buffer is the removed prefix followed by what remains, and the
      captured text is the end of that prefix. */
  lemma FrameSplitsBuffer(buffer: string, f: Framed)
    requires Frame(buffer) == Some(f)
    ensures EndsWith(buffer, f.rest)
    ensures EndsWith(buffer[..|buffer| - |f.rest|], f.text)
  {
    var m := FindMatch(buffer, 0).value;
    assert buffer[..|buffer| - |f.rest|] == buffer[..m.end];
    assert buffer[..m.end][m.end - |f.text|..] == f.text;
  }

  /** What remains begins with the prompt that closed the response, and no
      prompt begins inside the captured text: the text is the shortest one. */
  lemma FrameStopsAtFirstPrompt(buffer: string, f: Framed)
    requires Frame(buffer) == Some(f)
    ensures Boundary(f.rest)
    ensures forall k :: 0 <= k < |f.text| ==> !BoundaryAt(f.text + f.rest, k)
  {
    var m := FindMatch(buffer, 0).value;
    assert f.rest == buffer[m.end..];
    BoundaryShift(buffer, m.end, m.end);
    var tail := f.text + f.rest;
    assert tail == buffer[m.start..];
    NoBoundaryBefore(buffer, m.start, m.end);
  }

  /** A stretch of `s` without a boundary is one in every suffix that holds it. */
  lemma NoBoundaryBefore(s: string, d: nat, e: nat)
    requires d <= e <= |s|
    requires forall j :: d <= j < e ==> !BoundaryAt(s, j)
    ensures forall k :: 0 <= k < e - d ==> !BoundaryAt(s[d..], k)
  {
    forall k | 0 <= k < e - d ensures !BoundaryAt(s[d..], k) {
      BoundaryShift(s, d, d + k);
    }
  }

  // Parsing depends only on the characters from the parse position on: the
  // same parse on a suffix of the string gives the same answer, shifted.

  /** A step reads only characters at or after its position. */
  lemma StepShift(p: string, t: string, i: nat, q: Reading)
    requires i <= |t|
    ensures Step(p + t, |p| + i, q) == match Step(t, i, q)
      case Done(None) => Done(None)
      case Done(Some(e)) => Done(Some(e + |p|))
      case Next(k, q') => Next(k + |p|, q')
  {
  }

  lemma {:induction false} ReadShift(p: string, t: string, i: nat, q: Reading)
    requires i <= |t|
    ensures Read(p + t, |p| + i, q).Some? == Read(t, i, q).Some?
    ensures Read(t, i, q).Some? ==> Read(p + t, |p| + i, q).value == Read(t, i, q).value + |p|
    decreases |t| - i, PartsLeft(q)
  {
    StepShift(p, t, i, q);
    match Step(t, i, q)
    case Done(_) =>
    case Next(k, q') => ReadShift(p, t, k, q');
  }

  /** Whether a boundary begins at `s[j]` depends only on `s[j..]`. */
  lemma BoundaryShift(s: string, d: nat, j: nat)
    requires d <= j <= |s|
    ensures BoundaryAt(s, j) == BoundaryAt(s[d..], j - d)
  {
    var t := s[d..];
    assert s == s[..d] + t;
    assert BoundaryPromptPos(s, j) == BoundaryPromptPos(t, j - d) + d;
    ReadShift(s[..d], t, BoundaryPromptPos(t, j - d), Start);
  }
}
