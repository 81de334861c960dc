/** The command queue of `PerlRuntime` (client/src/perlRuntime.ts:20-53,
    229-256).

    The perl5db REPL has no request framing: a response is recognised only by
    the prompt that follows it. The runtime therefore keeps exactly one command
    in flight. A command added while another runs waits in the `nextCommand`
    chain; each data event appends to a receive buffer, splits off at most one
    response, resolves the running command with it and writes the next
    command, if any.

    `Queue` is the runtime's state as a value, `Submit` and `Receive` are its
    two transitions, and `Wellformed` is the invariant they keep: the commands
    are written and answered in the order they were submitted, and only the
    running command has been written without being answered. The class
    `CommandQueue` is the object itself; each of its methods is proved to
    perform the corresponding transition. */
module RuntimeQueue {
  import opened Text
  import opened Framing

  /** A command: `id` stands for the unique `Symbol` its response is emitted
      under, `text` is what is written to the socket. */
  datatype Command = Command(id: nat, text: string)

  /** A command resolved with the response text captured for it. */
  datatype Resolution = Resolution(command: Command, response: string)

  /** The runtime's state: every command ever submitted, the pending chain
      (the running command first, then its `nextCommand` links), the receive
      buffer, everything written to the socket and every resolution emitted,
      each in order. */
  datatype Queue = Queue(
    submitted: seq<Command>,
    pending: seq<Command>,
    buffer: string,
    written: seq<string>,
    resolved: seq<Resolution>)

  /** A freshly constructed runtime: nothing running, an empty buffer. */
  const Fresh: Queue := Queue([], [], "", [], [])

  /** The commands of a list of resolutions. */
  function CommandsOf(rs: seq<Resolution>): (cs: seq<Command>)
    ensures |cs| == |rs| && forall k :: 0 <= k < |rs| ==> cs[k] == rs[k].command
  {
    seq(|rs|, k requires 0 <= k < |rs| => rs[k].command)
  }

  /** The socket text of a list of commands. */
  function Texts(cs: seq<Command>): (ts: seq<string>)
    ensures |ts| == |cs| && forall k :: 0 <= k < |cs| ==> ts[k] == cs[k].text
  {
    seq(|cs|, k requires 0 <= k < |cs| => cs[k].text)
  }

  /** The command in flight, if any: the head of the pending chain. */
  function Running(q: Queue): seq<Command> {
    if q.pending == [] then [] else q.pending[..1]
  }

  /** The invariant of the queue: the submitted commands carry the ids
      0, 1, 2, … in order; each was either resolved or is still pending, the
      resolved ones first; and what went to the socket is exactly the text of
      the resolved commands followed by that of the running one. */
  predicate Wellformed(q: Queue) {
    && (forall k :: 0 <= k < |q.submitted| ==> q.submitted[k].id == k)
    && q.submitted == CommandsOf(q.resolved) + q.pending
    && q.written == Texts(CommandsOf(q.resolved) + Running(q))
  }

  /** `addCommand`: the new command gets the next id; with nothing running it
      becomes the running command and is written at once, otherwise it is
      appended to the end of the chain and nothing is written. */
  function Submit(q: Queue, text: string): (r: Queue) {
    var c := Command(|q.submitted|, text);
    if q.pending == [] then
      q.(submitted := q.submitted + [c], pending := [c], written := q.written + [text])
    else
      q.(submitted := q.submitted + [c], pending := q.pending + [c])
  }

  /** One matched response: it resolves the running command (a response that
      arrives with nothing running is emitted to no listener and dropped), the
      matched prefix leaves the buffer, and the next command in the chain, if
      any, becomes the running one and is written. */
  function Consume(q: Queue, f: Framed): (r: Queue) {
    if q.pending == [] then q.(buffer := f.rest)
    else
      var rest := q.pending[1..];
      q.(buffer := f.rest,
         pending := rest,
         resolved := q.resolved + [Resolution(q.pending[0], f.text)],
         written := if rest == [] then q.written else q.written + [rest[0].text])
  }

  /** The data handler: the chunk is appended to the buffer and at most one
      response is split off and consumed. */
  function Receive(q: Queue, chunk: string): (r: Queue) {
    var buffer := q.buffer + chunk;
    match Frame(buffer)
    case None => q.(buffer := buffer)
    case Some(f) => Consume(q.(buffer := buffer), f)
  }

  /** The text `runCommand` hands to `addCommand`: the command and a newline. */
  function CommandLine(command: string): (line: string)
    ensures |line| == |command| + 1 && line[..|command|] == command && line[|command|] == '\n'
  {
    command + "\n"
  }

  lemma FreshWellformed()
    ensures Wellformed(Fresh)
  {
  }

  /** Submitting keeps the invariant and records the command, with the next
      id, at the end of the submission order. */
  lemma SubmitPreserves(q: Queue, text: string)
    requires Wellformed(q)
    ensures Wellformed(Submit(q, text))
    ensures Submit(q, text).submitted == q.submitted + [Command(|q.submitted|, text)]
    ensures Submit(q, text).resolved == q.resolved
  {
  }

  /** Consuming a response keeps the invariant and the submission order. */
  lemma ConsumePreserves(q: Queue, f: Framed)
    requires Wellformed(q)
    ensures Wellformed(Consume(q, f))
    ensures Consume(q, f).submitted == q.submitted
  {
  }

  /** Receiving keeps the invariant and leaves the submission order alone. */
  lemma ReceivePreserves(q: Queue, chunk: string)
    requires Wellformed(q)
    ensures Wellformed(Receive(q, chunk))
    ensures Receive(q, chunk).submitted == q.submitted
  {
    var buffer := q.buffer + chunk;
    var p := q.(buffer := buffer);
    assert Wellformed(p);
    match Frame(buffer)
    case None =>
    case Some(f) => ConsumePreserves(p, f);
  }

  /** At most one command is in flight: every command written to the socket
      has been answered except the running one, and nothing is written while
      the queue is idle. */
  lemma AtMostOneInFlight(q: Queue)
    requires Wellformed(q)
    ensures |q.written| == |q.resolved| + |Running(q)|
    ensures |q.written| <= |q.resolved| + 1
    ensures q.pending == [] ==> |q.written| == |q.resolved|
  {
  }

  /** Commands reach the socket in the order they were submitted, and the
      k-th response resolves the k-th submitted command. */
  lemma SubmissionOrder(q: Queue)
    requires Wellformed(q)
    ensures |q.written| <= |q.submitted| && q.written == Texts(q.submitted[..|q.written|])
    ensures forall k :: 0 <= k < |q.resolved| ==> q.resolved[k].command == q.submitted[k]
  {
  }

  /** A data event resolves at most one command, and it is the one that was
      running; earlier resolutions stay as they were. */
  lemma ReceiveResolvesRunning(q: Queue, chunk: string)
    requires Wellformed(q)
    ensures |Receive(q, chunk).resolved| <= |q.resolved| + 1
    ensures Receive(q, chunk).resolved[..|q.resolved|] == q.resolved
    ensures |Receive(q, chunk).resolved| == |q.resolved| + 1 <==>
      q.pending != [] && Frame(q.buffer + chunk).Some?
    ensures |Receive(q, chunk).resolved| == |q.resolved| + 1 ==>
      Receive(q, chunk).resolved[|q.resolved|] ==
        Resolution(q.pending[0], Frame(q.buffer + chunk).value.text)
  {
  }

  /** A command is written by a data event only after the previous command's
      response was matched, and by `addCommand` only when nothing is running. */
  lemma WritesFollowResponses(q: Queue, chunk: string, text: string)
    requires Wellformed(q)
    ensures |Receive(q, chunk).written| > |q.written| ==>
      |Receive(q, chunk).resolved| == |q.resolved| + 1
    ensures |Submit(q, text).written| > |q.written| <==> q.pending == []
  {
  }

  /** The buffer keeps exactly the unmatched tail: what it holds after a data
      event is a suffix of the old buffer followed by the chunk, and the whole
      of it when nothing matched. */
  lemma ReceiveKeepsTail(q: Queue, chunk: string)
    ensures EndsWith(q.buffer + chunk, Receive(q, chunk).buffer)
    ensures Frame(q.buffer + chunk).None? ==> Receive(q, chunk).buffer == q.buffer + chunk
    ensures Frame(q.buffer + chunk).Some? ==>
      |Receive(q, chunk).buffer| < |q.buffer + chunk| && Boundary(Receive(q, chunk).buffer)
  {
    var buffer := q.buffer + chunk;
    match Frame(buffer)
    case None =>
      assert buffer[|buffer| - |buffer|..] == buffer;
    case Some(f) =>
      FrameSplitsBuffer(buffer, f);
      FrameStopsAtFirstPrompt(buffer, f);
  }

  /** What happens to a runtime: a command added, or a chunk of data received. */
  datatype Event = Add(text: string) | Data(chunk: string)

  function Apply(q: Queue, e: Event): Queue {
    match e
    case Add(text) => Submit(q, text)
    case Data(chunk) => Receive(q, chunk)
  }

  /** The state after a sequence of events. */
  function Run(q: Queue, events: seq<Event>): Queue
    decreases |events|
  {
    if events == [] then q else Run(Apply(q, events[0]), events[1..])
  }

  /** The texts of the commands added by a sequence of events, in order. */
  function AddedTexts(events: seq<Event>): seq<string>
    decreases |events|
  {
    if events == [] then []
    else (if events[0].Add? then [events[0].text] else []) + AddedTexts(events[1..])
  }

  /** One event keeps the invariant. */
  lemma ApplyPreserves(q: Queue, e: Event)
    requires Wellformed(q)
    ensures Wellformed(Apply(q, e))
  {
    match e {
      case Add(text) => SubmitPreserves(q, text);
      case Data(chunk) => ReceivePreserves(q, chunk);
    }
  }

  /** Only an added command joins the submission order, at its end. */
  lemma ApplySubmits(q: Queue, e: Event)
    ensures Texts(Apply(q, e).submitted) == Texts(q.submitted) + (if e.Add? then [e.text] else [])
  {
  }

  /** Whatever happens, the invariant holds. */
  lemma {:induction false} RunWellformed(q: Queue, events: seq<Event>)
    requires Wellformed(q)
    ensures Wellformed(Run(q, events))
    decreases |events|
  {
    if events != [] {
      ApplyPreserves(q, events[0]);
      RunWellformed(Apply(q, events[0]), events[1..]);
    }
  }

  /** The submission order is the order in which the commands were added. */
  lemma {:induction false} RunSubmits(q: Queue, events: seq<Event>)
    ensures Texts(Run(q, events).submitted) == Texts(q.submitted) + AddedTexts(events)
    decreases |events|
  {
    if events != [] {
      var added := if events[0].Add? then [events[0].text] else [];
      ApplySubmits(q, events[0]);
      RunSubmits(Apply(q, events[0]), events[1..]);
      AppendAssoc(Texts(q.submitted), added, AddedTexts(events[1..]));
    }
  }

  /** From a fresh runtime, the commands go to the socket in the order they
      were added. */
  lemma {:induction false} SocketOrder(events: seq<Event>)
    ensures |Run(Fresh, events).written| <= |AddedTexts(events)|
    ensures Run(Fresh, events).written == AddedTexts(events)[..|Run(Fresh, events).written|]
  {
    FreshWellformed();
    RunWellformed(Fresh, events);
    RunSubmits(Fresh, events);
    var q := Run(Fresh, events);
    SubmissionOrder(q);
    assert Texts(q.submitted) == AddedTexts(events);
    assert Texts(q.submitted[..|q.written|]) == Texts(q.submitted)[..|q.written|];
  }

  /** The mutable runtime object: the pending chain, the buffer, and the
      socket and listeners standing as the logs `written` and `resolved`. */
  class CommandQueue {
    var pending: seq<Command>
    var buffer: string
    var written: seq<string>
    var resolved: seq<Resolution>
    var nextId: nat
    ghost var submitted: seq<Command>

    ghost function State(): Queue
      reads this
    {
      Queue(submitted, pending, buffer, written, resolved)
    }

    ghost predicate Valid()
      reads this
    {
      Wellformed(State()) && nextId == |submitted|
    }

    constructor ()
      ensures Valid() && State() == Fresh
    {
      pending := [];
      buffer := "";
      written := [];
      resolved := [];
      nextId := 0;
      submitted := [];
      new;
      FreshWellformed();
    }

    /** `addCommand`: returns the id the command's response will carry. */
    method AddCommand(text: string) returns (id: nat)
      requires Valid()
      modifies this
      ensures Valid() && State() == Submit(old(State()), text)
      ensures id == old(|submitted|) && submitted[id] == Command(id, text)
    {
      SubmitPreserves(State(), text);
      var c := Command(nextId, text);
      id := nextId;
      nextId := nextId + 1;
      submitted := submitted + [c];
      if pending == [] {
        pending := [c];
        written := written + [text];
      } else {
        pending := pending + [c];
      }
    }

    /** `runCommand`: adds the command with a trailing newline; its response is
      the text of the resolution that carries the returned id. */
    method RunCommand(command: string) returns (id: nat)
      requires Valid()
      modifies this
      ensures Valid() && State() == Submit(old(State()), CommandLine(command))
      ensures id == old(|submitted|) && submitted[id].text == command + "\n"
    {
      id := AddCommand(CommandLine(command));
    }

    /** The socket's data handler. */
    method OnData(chunk: string)
      requires Valid()
      modifies this
      ensures Valid() && State() == Receive(old(State()), chunk)
    {
      ReceivePreserves(State(), chunk);
      buffer := buffer + chunk;
      var framed := Frame(buffer);
      if framed.Some? {
        Resolve(framed.value);
      }
    }

    /** What the data handler does with one matched response. */
    method Resolve(f: Framed)
      modifies this
      ensures State() == Consume(old(State()), f) && nextId == old(nextId)
    {
      buffer := f.rest;
      if pending != [] {
        resolved := resolved + [Resolution(pending[0], f.text)];
        pending := pending[1..];
        if pending != [] {
          written := written + [pending[0].text];
        }
      }
    }
  }
}
