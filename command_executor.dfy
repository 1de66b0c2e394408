/**
  The command execution core: a bounded-wait output collector over a shell
  channel, the local executor that drives one shell session through a batch
  of commands (answering prompts through the agent), and the remote executor
  that drives one socket connection and drains its responses recursively.

  The live channels are replaced by what a run would observe: the shell's
  output as a script of read events, the socket peer's replies as a queue of
  responses. The agent is a pair of functions. The random command ids and
  `shlex.quote` are parameters.
 */
module CommandExecutor {
  import opened Wrappers
  import opened Reports
  import Text
  import OpenAI
  import Seqs

  /** `os.linesep` on the POSIX systems the shell runs on. */
  const LineSep: string := "\n"

  /** The agent as the executors use it. */
  datatype Agent = Agent(provideInput: string -> Option<string>, analyzeOutput: string -> CommandReport)

  // ---------------------------------------------------------------------------
  // The shell channel and the output collector
  // ---------------------------------------------------------------------------

  /**
    One outcome of `read_nonblocking`: up to a buffer of text, the bounded wait
    running out, or the end of the process's output.
   */
  datatype ReadEvent = Chunk(text: string) | Timeout | Eof

  /** What a read returns. Past the script's end the process has exited, which reads as end of output. */
  function NextEvent(events: seq<ReadEvent>): ReadEvent {
    if events == [] then Eof else events[0]
  }

  /** The script after one read. End of output is not used up: every later read sees it again. */
  function AfterRead(events: seq<ReadEvent>): seq<ReadEvent> {
    if events == [] || events[0].Eof? then events else events[1..]
  }

  /** A spawned shell: what it will still print, and every line sent to it, oldest first. */
  class Process {
    var events: seq<ReadEvent>
    var sent: seq<string>

    constructor (output: seq<ReadEvent>)
      ensures events == output && sent == []
    {
      events := output;
      sent := [];
    }

    /** `process.read_nonblocking(...)`, a `TIMEOUT` or `EOF` exception being a `Timeout` or `Eof` event. */
    method ReadNonblocking() returns (e: ReadEvent)
      modifies this`events
      ensures e == NextEvent(old(events)) && events == AfterRead(old(events))
    {
      e := NextEvent(events);
      events := AfterRead(events);
    }

    /** `process.sendline(line)`. */
    method SendLine(line: string)
      modifies this`sent
      ensures sent == old(sent) + [line]
    {
      sent := sent + [line];
    }
  }

  /** The text one collection returns and the script left afterwards. */
  datatype Collected = Collected(output: string, rest: seq<ReadEvent>)

  /**
    `collect_output`: read until a chunk that itself contains the marker, a
    timeout, or the end of output, returning the text read. Only what is
    left unread is in `rest`, and any text read means some event was used up.
   */
  function Collect(events: seq<ReadEvent>, marker: string): (c: Collected)
    ensures |c.rest| <= |events|
    ensures c.output != "" ==> |c.rest| < |events|
  {
    match NextEvent(events)
    case Eof => Collected("", events)
    case Timeout => Collected("", events[1..])
    case Chunk(text) =>
      if Text.Contains(text, marker) then Collected(text, events[1..])
      else
        var c := Collect(events[1..], marker);
        Collected(text + c.output, c.rest)
  }

  /** What a collection leaves unread is exactly the events after the ones it read. */
  lemma {:induction false} CollectLeavesSuffix(events: seq<ReadEvent>, marker: string)
    ensures var c := Collect(events, marker); c.rest == events[|events| - |c.rest|..]
  {
    if events != [] && events[0].Chunk? && !Text.Contains(events[0].text, marker) {
      CollectLeavesSuffix(events[1..], marker);
    }
  }

  /** The text of the chunks among `events`, in order; timeouts and end of output contribute nothing. */
  function ChunkText(events: seq<ReadEvent>): string {
    if events == [] then ""
    else (if events[0].Chunk? then events[0].text else "") + ChunkText(events[1..])
  }

  lemma {:induction false} ChunkTextAppend(a: seq<ReadEvent>, b: seq<ReadEvent>)
    ensures ChunkText(a + b) == ChunkText(a) + ChunkText(b)
  {
    if a == [] {
      assert a + b == b;
    } else {
      assert (a + b)[0] == a[0];
      assert (a + b)[1..] == a[1..] + b;
      ChunkTextAppend(a[1..], b);
    }
  }

  /** The collected output is exactly the concatenation of the chunks the collection read. */
  lemma {:induction false} CollectIsConcatenation(events: seq<ReadEvent>, marker: string)
    ensures var c := Collect(events, marker);
      c.output == ChunkText(events[..|events| - |c.rest|])
  {
    var c := Collect(events, marker);
    match NextEvent(events)
    case Eof =>
    case Timeout =>
      assert events[..1] == [Timeout];
    case Chunk(text) =>
      if Text.Contains(text, marker) {
        assert events[..1] == [Chunk(text)];
      } else {
        CollectIsConcatenation(events[1..], marker);
        var n := |events| - |c.rest|;
        assert events[..n] == [events[0]] + events[1..][..n - 1];
      }
  }

  /**
    Every event a collection reads before its last one is a chunk without
    the marker: the check looks at the current chunk only, never at the text
    gathered so far.
   */
  lemma {:induction false} CollectPassesOnlyMarkerlessChunks(events: seq<ReadEvent>, marker: string)
    ensures var c := Collect(events, marker); var n := |events| - |c.rest|;
      forall i :: 0 <= i < n - 1 ==> events[i].Chunk? && !Text.Contains(events[i].text, marker)
  {
    if events != [] && events[0].Chunk? && !Text.Contains(events[0].text, marker) {
      var tail := events[1..];
      CollectPassesOnlyMarkerlessChunks(tail, marker);
      var c1 := Collect(tail, marker);
      var n1 := |tail| - |c1.rest|;
      assert Collect(events, marker).rest == c1.rest;
      forall i | 0 <= i < n1 ensures events[i].Chunk? && !Text.Contains(events[i].text, marker) {
        if i > 0 {
          assert events[i] == tail[i - 1];
        }
      }
    }
  }

  /**
    A collection stops right after a chunk containing the marker, right after
    a timeout, or at the end of output, and reads nothing further; it never
    uses up an end of output. A timeout on the first read yields "".
   */
  lemma {:induction false} CollectStopReason(events: seq<ReadEvent>, marker: string)
    ensures var c := Collect(events, marker); var n := |events| - |c.rest|;
      || (n > 0 && events[n - 1].Timeout?)
      || (n > 0 && events[n - 1].Chunk? && Text.Contains(events[n - 1].text, marker))
      || NextEvent(c.rest).Eof?
    ensures var c := Collect(events, marker);
      forall i :: 0 <= i < |events| - |c.rest| ==> !events[i].Eof?
    ensures events != [] && events[0].Timeout? ==> Collect(events, marker) == Collected("", events[1..])
  {
    if events != [] && events[0].Chunk? && !Text.Contains(events[0].text, marker) {
      var tail := events[1..];
      CollectStopReason(tail, marker);
      var c1 := Collect(tail, marker);
      var n1 := |tail| - |c1.rest|;
      assert Collect(events, marker).rest == c1.rest;
      if n1 > 0 {
        assert events[n1] == tail[n1 - 1];
      }
      forall i | 0 < i < n1 + 1 ensures !events[i].Eof? {
        assert events[i] == tail[i - 1];
      }
    }
  }

  /**
    A marker split across two reads is not seen: when two chunks together
    spell the marker, collection goes on past them, through any further
    chunk too short to hold the marker, up to the timeout.
   */
  lemma SplitMarkerIsNotSeen(first: string, second: string, more: string, marker: string)
    requires first != "" && second != "" && first + second == marker && |more| < |marker|
    ensures Collect([Chunk(first), Chunk(second), Chunk(more), Timeout], marker)
         == Collected(marker + more, [])
  {
    var e2: seq<ReadEvent> := [Chunk(more), Timeout];
    var e1 := [Chunk(second)] + e2;
    assert [Chunk(first), Chunk(second), Chunk(more), Timeout] == [Chunk(first)] + e1;
    ShortChunkThenTimeout(more, marker);
    CollectPastShortChunk(second, e2, marker);
    CollectPastShortChunk(first, e1, marker);
    Seqs.AppendAssoc(first, second, more);
  }

  /** A short chunk and then a timeout: the chunk is all that is collected, and nothing is left. */
  lemma ShortChunkThenTimeout(text: string, marker: string)
    requires |text| < |marker|
    ensures Collect([Chunk(text), Timeout], marker) == Collected(text, [])
  {
    CollectPastShortChunk(text, [Timeout], marker);
    assert [Chunk(text)] + [Timeout] == [Chunk(text), Timeout];
    assert text + "" == text;
  }

  /** A chunk shorter than the marker cannot hold it, so collection reads on past it. */
  lemma CollectPastShortChunk(text: string, tail: seq<ReadEvent>, marker: string)
    requires |text| < |marker|
    ensures Collect([Chunk(text)] + tail, marker)
         == Collected(text + Collect(tail, marker).output, Collect(tail, marker).rest)
  {
    NoLongNeedle(text, marker);
    assert ([Chunk(text)] + tail)[1..] == tail;
  }

  /** A needle longer than the haystack does not occur in it. */
  lemma {:induction false} NoLongNeedle(haystack: string, needle: string)
    requires |needle| > |haystack|
    ensures !Text.Contains(haystack, needle)
  {
    if haystack != [] {
      NoLongNeedle(haystack[1..], needle);
    }
  }

  /** `collect_output` as the loop it is; it returns exactly what `Collect` describes and sends nothing. */
  method CollectOutput(process: Process, marker: string) returns (output: string)
    modifies process`events
    ensures Collect(old(process.events), marker) == Collected(output, process.events)
  {
    ghost var whole := Collect(process.events, marker);
    output := "";
    while true
      invariant whole == Collected(output + Collect(process.events, marker).output, Collect(process.events, marker).rest)
      decreases |process.events|
    {
      ghost var before := process.events;
      ghost var c := Collect(before, marker);
      var e := process.ReadNonblocking();
      if e.Chunk? {
        assert process.events == before[1..];
        ghost var more := Collect(process.events, marker);
        ghost var prefix := output;
        output := output + e.text;
        if Text.Contains(e.text, marker) {
          assert c == Collected(e.text, process.events);
          break;
        }
        assert c == Collected(e.text + more.output, more.rest);
        assert prefix + (e.text + more.output) == output + more.output;
      } else {
        break;
      }
    }
  }

  // ---------------------------------------------------------------------------
  // What the agent's answer means to an executor
  // ---------------------------------------------------------------------------

  /** `get_input_text` on the agent's answer: the text to type, or `None` for the sentinel, an empty answer or no answer. */
  function GetInputText(answer: Option<string>): (input: Option<string>)
    ensures input.Some? <==> answer.Some? && answer.value != OpenAI.Noop && answer.value != ""
    ensures input.Some? ==> input == answer
  {
    match answer
    case None => None
    case Some(instruction) =>
      if instruction == OpenAI.Noop then None
      else if instruction != "" then Some(instruction)
      else None
  }

  /** The messages sent to the remote executor; their JSON encoding is left abstract. */
  datatype Request = CommandRequest(command: string) | InputRequest(input: string)

  /** `get_input_message`: the same decision as `GetInputText`, wrapped as an input message. */
  function GetInputMessage(answer: Option<string>): (message: Option<Request>)
    ensures message.Some? <==> answer.Some? && answer.value != OpenAI.Noop && answer.value != ""
    ensures message.Some? ==> message.value == InputRequest(answer.value)
  {
    match GetInputText(answer)
    case None => None
    case Some(instruction) => Some(InputRequest(instruction))
  }

  /**
    `get_input_text` applied to the answer of `provide_input`'s cascade gives
    text to type exactly when both checks said "Yes" and the third reply is
    neither empty nor the sentinel.
   */
  lemma TypedInputNeedsTwoYes(hasPrompt: Option<string>, verified: Option<string>, answer: Option<string>)
    ensures GetInputText(OpenAI.Cascade(hasPrompt, verified, answer)).Some?
        <==> hasPrompt == Some(OpenAI.Yes) && verified == Some(OpenAI.Yes)
             && answer.Some? && answer.value != OpenAI.Noop && answer.value != ""
  {
  }

  // ---------------------------------------------------------------------------
  // The local executor
  // ---------------------------------------------------------------------------

  /** The completion marker for a command id. */
  function Marker(id: string): string {
    "Completed " + id
  }

  /** The line that echoes a command before it runs. */
  function EchoLine(quote: string -> string, command: string): string {
    "echo " + quote(command) + "\n"
  }

  /** The command as submitted: it echoes its marker once it has succeeded. */
  function Wrapped(command: string, id: string): string {
    command + " && echo " + Marker(id)
  }

  /** The record of one command's inner loop: its output, the inputs typed, the script left. */
  datatype Interaction = Interaction(output: string, inputs: seq<string>, rest: seq<ReadEvent>)

  /**
    The local inner loop: collect; if nothing came, stop; otherwise ask the
    agent, and if it gives text to type, record it with a line separator and
    send it; then collect again. A "no input" answer does not stop the loop.
   */
  function Interact(events: seq<ReadEvent>, marker: string, provideInput: string -> Option<string>): (it: Interaction)
    ensures |it.rest| <= |events|
    ensures forall k :: 0 <= k < |it.inputs| ==> it.inputs[k] != "" && it.inputs[k] != OpenAI.Noop
    decreases |events|
  {
    var c := Collect(events, marker);
    if c.output == "" then Interaction("", [], c.rest)
    else
      var next := Interact(c.rest, marker, provideInput);
      match GetInputText(provideInput(c.output))
      case None => Interaction(c.output + next.output, next.inputs, next.rest)
      case Some(input) => Interaction(c.output + input + LineSep + next.output, [input] + next.inputs, next.rest)
  }

  /** A "no input" answer keeps the loop collecting. */
  lemma NoopKeepsCollecting(events: seq<ReadEvent>, marker: string, provideInput: string -> Option<string>)
    requires Collect(events, marker).output != ""
    requires provideInput(Collect(events, marker).output) == Some(OpenAI.Noop)
    ensures var c := Collect(events, marker); var next := Interact(c.rest, marker, provideInput);
      Interact(events, marker, provideInput) == Interaction(c.output + next.output, next.inputs, next.rest)
  {
  }

  /** The agent asks for nothing to be typed after `output`. */
  predicate Silent(provideInput: string -> Option<string>, output: string) {
    GetInputText(provideInput(output)).None?
  }

  /**
    When the agent never asks for input, a command's output is exactly the
    text of all chunks read, and nothing is typed.
   */
  lemma {:induction false} InteractWithoutInput(events: seq<ReadEvent>, marker: string, provideInput: string -> Option<string>)
    requires forall t :: Silent(provideInput, t)
    ensures var it := Interact(events, marker, provideInput);
      it.output == ChunkText(events[..|events| - |it.rest|]) && it.inputs == []
    decreases |events|
  {
    var c := Collect(events, marker);
    CollectIsConcatenation(events, marker);
    if c.output == "" {
      EmptyTurn(events, marker, provideInput);
    } else {
      SilentTurn(events, marker, provideInput);
      InteractWithoutInput(c.rest, marker, provideInput);
      var it := Interact(events, marker, provideInput);
      CollectLeavesSuffix(events, marker);
      var n := |c.rest| - |it.rest|;
      Seqs.SuffixSplit(events, c.rest, n);
      assert |events| - |it.rest| == |events| - |c.rest| + n;
      ChunkTextAppend(events[..|events| - |c.rest|], c.rest[..n]);
    }
  }

  /** A turn with output after which the agent asks for nothing goes straight on collecting. */
  lemma SilentTurn(events: seq<ReadEvent>, marker: string, provideInput: string -> Option<string>)
    requires Collect(events, marker).output != ""
    requires Silent(provideInput, Collect(events, marker).output)
    ensures var c := Collect(events, marker); var next := Interact(c.rest, marker, provideInput);
      Interact(events, marker, provideInput) == Interaction(c.output + next.output, next.inputs, next.rest)
  {
  }

  /**
    The collections of one command's inner loop: the text of each collection
    that returned something, in order, and the events from which the final
    collection, the one that returned nothing, reads. They do not depend on
    the agent, since the script does not depend on what is typed.
   */
  datatype Turns = Turns(outputs: seq<string>, last: seq<ReadEvent>)

  function CollectTurns(events: seq<ReadEvent>, marker: string): (t: Turns)
    ensures |t.last| <= |events|
    ensures forall k :: 0 <= k < |t.outputs| ==> t.outputs[k] != ""
    decreases |events|
  {
    var c := Collect(events, marker);
    if c.output == "" then Turns([], events)
    else
      var t := CollectTurns(c.rest, marker);
      Turns([c.output] + t.outputs, t.last)
  }

  /** What the loop records for one collection: its text, then the typed answer and a line separator if there is one. */
  function Answered(output: string, provideInput: string -> Option<string>): string {
    match GetInputText(provideInput(output))
    case None => output
    case Some(input) => output + input + LineSep
  }

  /** The collections' texts, each followed by the answer it prompted. */
  function Spliced(outputs: seq<string>, provideInput: string -> Option<string>): string {
    if outputs == [] then "" else Answered(outputs[0], provideInput) + Spliced(outputs[1..], provideInput)
  }

  /** The answers the collections prompted, in order. */
  function Answers(outputs: seq<string>, provideInput: string -> Option<string>): seq<string> {
    if outputs == [] then []
    else
      (match GetInputText(provideInput(outputs[0])) case None => [] case Some(input) => [input])
      + Answers(outputs[1..], provideInput)
  }

  /** The texts one after the other. */
  function Concat(texts: seq<string>): string {
    if texts == [] then "" else texts[0] + Concat(texts[1..])
  }

  /** Each line followed by a line separator. */
  function Lines(lines: seq<string>): string {
    if lines == [] then "" else lines[0] + LineSep + Lines(lines[1..])
  }

  /**
    The inner loop in closed form, for any agent: its collections are the
    chunk text it read, with each typed answer and a line separator spliced
    in right after the collection that prompted it; the inputs typed are
    those answers; and the loop ends on a collection that returned nothing,
    read where the previous one stopped.
   */
  lemma InteractSplicesInputs(events: seq<ReadEvent>, marker: string, provideInput: string -> Option<string>)
    ensures var it, t := Interact(events, marker, provideInput), CollectTurns(events, marker);
      && it.output == Spliced(t.outputs, provideInput)
      && it.inputs == Answers(t.outputs, provideInput)
      && Concat(t.outputs) == ChunkText(events[..|events| - |it.rest|])
      && t.last == events[|events| - |t.last|..]
      && Collect(t.last, marker) == Collected("", it.rest)
  {
    InteractRecordsAnswers(events, marker, provideInput);
    InteractReadsTurns(events, marker, provideInput);
  }

  /** The output and inputs of the inner loop are its collections with their answers spliced in. */
  lemma {:induction false} InteractRecordsAnswers(events: seq<ReadEvent>, marker: string, provideInput: string -> Option<string>)
    ensures var it, t := Interact(events, marker, provideInput), CollectTurns(events, marker);
      it.output == Spliced(t.outputs, provideInput) && it.inputs == Answers(t.outputs, provideInput)
    decreases |events|
  {
    var c := Collect(events, marker);
    if c.output != "" {
      var t := CollectTurns(c.rest, marker);
      InteractRecordsAnswers(c.rest, marker, provideInput);
      var outputs := [c.output] + t.outputs;
      assert outputs[0] == c.output && outputs[1..] == t.outputs;
    }
  }

  /**
    The collections of the inner loop are the chunk text it read, and the
    last one starts where the one before it stopped and returns nothing.
   */
  lemma {:induction false} InteractReadsTurns(events: seq<ReadEvent>, marker: string, provideInput: string -> Option<string>)
    ensures ReadsTurns(events, marker, Interact(events, marker, provideInput).rest)
    decreases |events|
  {
    var c := Collect(events, marker);
    if c.output == "" {
      CollectIsConcatenation(events, marker);
      EmptyTurn(events, marker, provideInput);
      assert events[..|events| - |c.rest|] == events[..|events| - |Interact(events, marker, provideInput).rest|];
    } else {
      InteractReadsTurns(c.rest, marker, provideInput);
      InteractRest(events, marker, provideInput);
      ReadsTurnsStep(events, marker, Interact(c.rest, marker, provideInput).rest);
    }
  }

  /** The collections of `events` concatenate to the chunk text read before `rest`, and the last one ends at `rest`. */
  ghost predicate ReadsTurns(events: seq<ReadEvent>, marker: string, rest: seq<ReadEvent>) {
    var t := CollectTurns(events, marker);
    && |rest| <= |events|
    && Concat(t.outputs) == ChunkText(events[..|events| - |rest|])
    && t.last == events[|events| - |t.last|..]
    && Collect(t.last, marker) == Collected("", rest)
  }

  /** A collection that returned text, followed by collections of which `ReadsTurns` holds. */
  lemma ReadsTurnsStep(events: seq<ReadEvent>, marker: string, rest: seq<ReadEvent>)
    requires Collect(events, marker).output != ""
    requires ReadsTurns(Collect(events, marker).rest, marker, rest)
    ensures ReadsTurns(events, marker, rest)
  {
    var c := Collect(events, marker);
    CollectIsConcatenation(events, marker);
    CollectLeavesSuffix(events, marker);
    var t := CollectTurns(c.rest, marker);
    assert CollectTurns(events, marker) == Turns([c.output] + t.outputs, t.last);
    TurnsAcross(events, c.rest, rest, c.output, t.outputs, t.last);
  }

  /** The sequence facts behind one step of `InteractReadsTurns`. */
  lemma TurnsAcross(events: seq<ReadEvent>, mid: seq<ReadEvent>, rest: seq<ReadEvent>,
                    output: string, outputs: seq<string>, last: seq<ReadEvent>)
    requires |mid| <= |events| && mid == events[|events| - |mid|..]
    requires |rest| <= |mid|
    requires |last| <= |mid| && last == mid[|mid| - |last|..]
    requires output == ChunkText(events[..|events| - |mid|])
    requires Concat(outputs) == ChunkText(mid[..|mid| - |rest|])
    ensures Concat([output] + outputs) == ChunkText(events[..|events| - |rest|])
    ensures last == events[|events| - |last|..]
  {
    ConcatCons(output, outputs);
    ChunkTextAcross(events, mid, rest);
    Seqs.SuffixOfSuffix(events, mid, last);
  }

  lemma ConcatCons(text: string, texts: seq<string>)
    ensures Concat([text] + texts) == text + Concat(texts)
  {
    assert ([text] + texts)[0] == text && ([text] + texts)[1..] == texts;
  }

  /** The chunk text up to `mid`, then from `mid` up to `rest`, is the chunk text up to `rest`. */
  lemma ChunkTextAcross(events: seq<ReadEvent>, mid: seq<ReadEvent>, rest: seq<ReadEvent>)
    requires |mid| <= |events| && mid == events[|events| - |mid|..]
    requires |rest| <= |mid|
    ensures ChunkText(events[..|events| - |mid|]) + ChunkText(mid[..|mid| - |rest|])
         == ChunkText(events[..|events| - |rest|])
  {
    var n := |mid| - |rest|;
    Seqs.SuffixSplit(events, mid, n);
    ChunkTextAppend(events[..|events| - |mid|], mid[..n]);
  }

  /** After a collection that returned text, the loop goes on from where that collection stopped. */
  lemma InteractRest(events: seq<ReadEvent>, marker: string, provideInput: string -> Option<string>)
    requires Collect(events, marker).output != ""
    ensures var c := Collect(events, marker);
      Interact(events, marker, provideInput).rest == Interact(c.rest, marker, provideInput).rest
  {
  }

  /** Splicing the answers in adds each answer and one line separator per answer, and nothing else. */
  lemma {:induction false} SplicedLength(outputs: seq<string>, provideInput: string -> Option<string>)
    ensures |Spliced(outputs, provideInput)| == |Concat(outputs)| + |Lines(Answers(outputs, provideInput))|
  {
    if outputs != [] {
      SplicedLength(outputs[1..], provideInput);
      var rest := Answers(outputs[1..], provideInput);
      match GetInputText(provideInput(outputs[0]))
      case None =>
        assert Answers(outputs, provideInput) == [] + rest == rest;
      case Some(input) =>
        assert Answers(outputs, provideInput) == [input] + rest;
        assert ([input] + rest)[0] == input && ([input] + rest)[1..] == rest;
    }
  }

  /**
    A command's recorded output is as long as the chunk text read plus every
    typed input with its line separator.
   */
  lemma InteractOutputLength(events: seq<ReadEvent>, marker: string, provideInput: string -> Option<string>)
    ensures var it := Interact(events, marker, provideInput);
      |it.output| == |ChunkText(events[..|events| - |it.rest|])| + |Lines(it.inputs)|
  {
    InteractSplicesInputs(events, marker, provideInput);
    SplicedLength(CollectTurns(events, marker).outputs, provideInput);
  }

  /** One command end to end: what is reported, what is sent, what is left to read. */
  datatype Step<M, R> = Step(report: CommandReport, sent: seq<M>, rest: R)

  /** A batch: the reports in order, everything sent, what is left of the channel. */
  datatype Batch<M, R> = Batch(reports: seq<CommandReport>, sent: seq<M>, rest: R)

  /** One local command: echo it, submit it wrapped, run the inner loop, judge the output. */
  function RunLocalCommand(events: seq<ReadEvent>, command: string, id: string,
                           quote: string -> string, agent: Agent): Step<string, seq<ReadEvent>>
  {
    var it := Interact(events, Marker(id), agent.provideInput);
    Step(agent.analyzeOutput(it.output), [EchoLine(quote, command), Wrapped(command, id)] + it.inputs, it.rest)
  }

  /** A local batch in one session, command `k` using id `ids(k)`; one report per command. */
  function RunLocalBatch(events: seq<ReadEvent>, commands: seq<string>, ids: nat -> string,
                         quote: string -> string, agent: Agent): (b: Batch<string, seq<ReadEvent>>)
    ensures |b.reports| == |commands|
    decreases |commands|
  {
    if commands == [] then Batch([], [], events)
    else
      var n := |commands| - 1;
      var b := RunLocalBatch(events, commands[..n], ids, quote, agent);
      var s := RunLocalCommand(b.rest, commands[n], ids(n), quote, agent);
      Batch(b.reports + [s.report], b.sent + s.sent, s.rest)
  }

  /** Running a prefix of the batch is the start of running the batch. */
  lemma {:induction false} LocalBatchPrefix(events: seq<ReadEvent>, commands: seq<string>, ids: nat -> string,
                                            quote: string -> string, agent: Agent, j: nat)
    requires j <= |commands|
    ensures var whole, part := RunLocalBatch(events, commands, ids, quote, agent), RunLocalBatch(events, commands[..j], ids, quote, agent);
      whole.reports[..j] == part.reports && part.sent <= whole.sent
    decreases |commands|
  {
    if j < |commands| {
      var n := |commands| - 1;
      assert commands[..n][..j] == commands[..j];
      LocalBatchPrefix(events, commands[..n], ids, quote, agent, j);
    } else {
      assert commands[..j] == commands;
    }
  }

  lemma LocalBatchStep(events: seq<ReadEvent>, commands: seq<string>, ids: nat -> string,
                       quote: string -> string, agent: Agent, i: nat)
    requires i < |commands|
    ensures var before := RunLocalBatch(events, commands[..i], ids, quote, agent);
      var step := RunLocalCommand(before.rest, commands[i], ids(i), quote, agent);
      RunLocalBatch(events, commands[..i + 1], ids, quote, agent)
        == Batch(before.reports + [step.report], before.sent + step.sent, step.rest)
  {
    assert commands[..i + 1][..i] == commands[..i];
    assert commands[..i + 1][i] == commands[i];
  }

  /**
    Report `i` of a local batch is the agent's judgment of command `i`'s
    recorded output, and the lines sent for command `i` are its echo, the
    wrapped command, then each input typed for it.
   */
  lemma LocalBatchPerCommand(events: seq<ReadEvent>, commands: seq<string>, ids: nat -> string,
                             quote: string -> string, agent: Agent, i: nat)
    requires i < |commands|
    ensures var whole, before := RunLocalBatch(events, commands, ids, quote, agent), RunLocalBatch(events, commands[..i], ids, quote, agent);
      var it := Interact(before.rest, Marker(ids(i)), agent.provideInput);
      var lines := [EchoLine(quote, commands[i]), Wrapped(commands[i], ids(i))] + it.inputs;
      && whole.reports[i] == agent.analyzeOutput(it.output)
      && before.sent + lines <= whole.sent
  {
    var whole := RunLocalBatch(events, commands, ids, quote, agent);
    var before := RunLocalBatch(events, commands[..i], ids, quote, agent);
    var step := RunLocalCommand(before.rest, commands[i], ids(i), quote, agent);
    var upTo := RunLocalBatch(events, commands[..i + 1], ids, quote, agent);
    LocalBatchStep(events, commands, ids, quote, agent, i);
    assert upTo.reports[i] == step.report;
    LocalBatchPrefix(events, commands, ids, quote, agent, i + 1);
    assert whole.reports[i] == whole.reports[..i + 1][i];
  }

  /** What has been recorded so far followed by what the rest of the loop records. */
  function Resume(output: string, inputs: seq<string>, rest: Interaction): Interaction {
    Interaction(output + rest.output, inputs + rest.inputs, rest.rest)
  }

  /** A turn whose collection returned text: record it, and the typed input if any, and go on. */
  lemma TextTurn(whole: Interaction, events: seq<ReadEvent>, marker: string, provideInput: string -> Option<string>,
                 output: string, inputs: seq<string>)
    requires whole == Resume(output, inputs, Interact(events, marker, provideInput))
    requires Collect(events, marker).output != ""
    ensures var c := Collect(events, marker); var answer := GetInputText(provideInput(c.output));
      var next := Interact(c.rest, marker, provideInput);
      && (answer.None? ==> whole == Resume(output + c.output, inputs, next))
      && (answer.Some? ==> whole == Resume(output + c.output + answer.value + LineSep, inputs + [answer.value], next))
  {
    var c := Collect(events, marker);
    var answer := GetInputText(provideInput(c.output));
    var next := Interact(c.rest, marker, provideInput);
    if answer.Some? {
      assert Interact(events, marker, provideInput)
          == Interaction(c.output + answer.value + LineSep + next.output, [answer.value] + next.inputs, next.rest);
      Seqs.AppendAssoc(output, c.output + answer.value + LineSep, next.output);
      Seqs.AppendAssoc(output, c.output + answer.value, LineSep);
      Seqs.AppendAssoc(output, c.output, answer.value);
      Seqs.AppendAssoc(inputs, [answer.value], next.inputs);
    } else {
      assert Interact(events, marker, provideInput) == Interaction(c.output + next.output, next.inputs, next.rest);
      Seqs.AppendAssoc(output, c.output, next.output);
    }
  }

  /** A turn whose collection returned nothing ends the loop. */
  lemma EmptyTurn(events: seq<ReadEvent>, marker: string, provideInput: string -> Option<string>)
    requires Collect(events, marker).output == ""
    ensures Interact(events, marker, provideInput) == Interaction("", [], Collect(events, marker).rest)
  {
  }

  /**
    The inner `while True` of `LocalCommandExecutor.execute_commands_sync`
    for one submitted command, with the marker it watches for.
   */
  method InteractLoop(agent: Agent, process: Process, marker: string) returns (commandOutput: string)
    modifies process
    ensures old(process.sent) <= process.sent
    ensures Interact(old(process.events), marker, agent.provideInput)
         == Interaction(commandOutput, process.sent[|old(process.sent)|..], process.events)
  {
    ghost var whole := Interact(process.events, marker, agent.provideInput);
    ghost var inputs: seq<string> := [];
    commandOutput := "";
    while true
      invariant whole == Resume(commandOutput, inputs, Interact(process.events, marker, agent.provideInput))
      invariant process.sent == old(process.sent) + inputs
      decreases |process.events|
    {
      ghost var before := process.events;
      var newOutput := CollectOutput(process, marker);
      if newOutput != "" {
        TextTurn(whole, before, marker, agent.provideInput, commandOutput, inputs);
      } else {
        EmptyTurn(before, marker, agent.provideInput);
      }
      commandOutput := commandOutput + newOutput;
      if newOutput != "" {
        var inputText := GetInputText(agent.provideInput(newOutput));
        if inputText.Some? && inputText.value != "" {
          commandOutput := commandOutput + inputText.value + LineSep;
          process.SendLine(inputText.value);
          inputs := inputs + [inputText.value];
        }
      } else {
        assert commandOutput + "" == commandOutput && inputs + [] == inputs;
        assert process.sent[|old(process.sent)|..] == inputs;
        break;
      }
    }
  }

  /** Running command `i` after the first `i` extends the batch by its report, its lines and its reads. */
  lemma LocalCommandIs(events: seq<ReadEvent>, command: string, id: string, quote: string -> string, agent: Agent,
                       output: string, typed: seq<string>, rest: seq<ReadEvent>)
    requires Interact(events, Marker(id), agent.provideInput) == Interaction(output, typed, rest)
    ensures RunLocalCommand(events, command, id, quote, agent)
         == Step(agent.analyzeOutput(output), [EchoLine(quote, command), Wrapped(command, id)] + typed, rest)
  {
  }

  lemma LocalBatchExtends(events: seq<ReadEvent>, commands: seq<string>, ids: nat -> string,
                          quote: string -> string, agent: Agent, i: nat,
                          report: seq<CommandReport>, sent: seq<string>, rest: seq<ReadEvent>,
                          output: string, typed: seq<string>, restAfter: seq<ReadEvent>)
    requires i < |commands|
    requires RunLocalBatch(events, commands[..i], ids, quote, agent) == Batch(report, sent, rest)
    requires Interact(rest, Marker(ids(i)), agent.provideInput) == Interaction(output, typed, restAfter)
    ensures RunLocalBatch(events, commands[..i + 1], ids, quote, agent)
         == Batch(report + [agent.analyzeOutput(output)],
                  sent + ([EchoLine(quote, commands[i]), Wrapped(commands[i], ids(i))] + typed), restAfter)
  {
    LocalBatchStep(events, commands, ids, quote, agent, i);
    LocalCommandIs(rest, commands[i], ids(i), quote, agent, output, typed, restAfter);
  }

  /**
    `LocalCommandExecutor.execute_commands_sync`: spawn one shell for the
    batch and run each command in it, in order.
   */
  method LocalExecuteCommandsSync(agent: Agent, shellOutput: seq<ReadEvent>, commands: seq<string>,
                                  ids: nat -> string, quote: string -> string)
    returns (report: seq<CommandReport>, process: Process)
    ensures fresh(process)
    ensures RunLocalBatch(shellOutput, commands, ids, quote, agent) == Batch(report, process.sent, process.events)
  {
    process := new Process(shellOutput);
    report := [];
    for i := 0 to |commands|
      invariant RunLocalBatch(shellOutput, commands[..i], ids, quote, agent) == Batch(report, process.sent, process.events)
    {
      ghost var sentBefore := process.sent;
      ghost var eventsBefore := process.events;
      var command := commands[i];
      process.SendLine(EchoLine(quote, command));
      var marker := Marker(ids(i));
      process.SendLine(Wrapped(command, ids(i)));
      ghost var sentMiddle := process.sent;
      var commandOutput := InteractLoop(agent, process, marker);
      Seqs.AppendedAfter(sentBefore, [EchoLine(quote, command), Wrapped(command, ids(i))], sentMiddle, process.sent);
      LocalBatchExtends(shellOutput, commands, ids, quote, agent, i, report, sentBefore, eventsBefore,
                        commandOutput, process.sent[|sentMiddle|..], process.events);
      var agentOutput := agent.analyzeOutput(commandOutput);
      report := report + [agentOutput];
    }
    assert commands[..|commands|] == commands;
  }

  // ---------------------------------------------------------------------------
  // The remote executor
  // ---------------------------------------------------------------------------

  /** The peer's next response; a peer with nothing more to say answers "". */
  function NextResponse(queue: seq<string>): string {
    if queue == [] then "" else queue[0]
  }

  /** The peer's remaining responses after one has been read. */
  function AfterResponse(queue: seq<string>): seq<string> {
    if queue == [] then [] else queue[1..]
  }

  /** One socket connection: the responses the peer will still give, and every message sent, oldest first. */
  class Client {
    var responses: seq<string>
    var sent: seq<Request>

    constructor (peer: seq<string>)
      ensures responses == peer && sent == []
    {
      responses := peer;
      sent := [];
    }

    /** `send_message`: send one message and read the response to it. */
    method SendMessage(message: Request) returns (response: string)
      modifies this
      ensures sent == old(sent) + [message]
      ensures response == NextResponse(old(responses)) && responses == AfterResponse(old(responses))
    {
      sent := sent + [message];
      response := NextResponse(responses);
      responses := AfterResponse(responses);
    }

    /** `read_response`: read one more response without sending anything. */
    method ReadResponse() returns (response: string)
      modifies this`responses
      ensures response == NextResponse(old(responses)) && responses == AfterResponse(old(responses))
    {
      response := NextResponse(responses);
      responses := AfterResponse(responses);
    }
  }

  /** What draining a response returns, the messages it sent, and the responses left unread. */
  datatype Drained = Drained(output: string, sent: seq<Request>, rest: seq<string>)

  /**
    `collect_response`: an empty response ends the draining. A non-empty one
    is shown to the agent; if it asks for input, the input is sent and its
    response kept; then, whether or not input was sent, one more response is
    read and drained the same way. The program has no bound on this
    recursion; here it ends because every step reads from a finite peer.
   */
  function Drain(response: string, queue: seq<string>, provideInput: string -> Option<string>): (d: Drained)
    ensures |d.rest| <= |queue|
    decreases |queue| + (if response == "" then 0 else 1)
  {
    if response == "" then Drained("", [], queue)
    else
      var message := GetInputMessage(provideInput(response));
      var inputResponse := if message.Some? then NextResponse(queue) else "";
      var afterInput := if message.Some? then AfterResponse(queue) else queue;
      var more := Drain(NextResponse(afterInput), AfterResponse(afterInput), provideInput);
      Drained(response + inputResponse + more.output,
              (if message.Some? then [message.value] else []) + more.sent,
              more.rest)
  }

  /** Draining sends input messages only, never a command. */
  lemma {:induction false} DrainSendsOnlyInput(response: string, queue: seq<string>, provideInput: string -> Option<string>)
    ensures forall k :: 0 <= k < |Drain(response, queue, provideInput).sent| ==> Drain(response, queue, provideInput).sent[k].InputRequest?
    decreases |queue| + (if response == "" then 0 else 1)
  {
    if response != "" {
      var message := GetInputMessage(provideInput(response));
      var afterInput := if message.Some? then AfterResponse(queue) else queue;
      DrainSendsOnlyInput(NextResponse(afterInput), AfterResponse(afterInput), provideInput);
    }
  }

  /** The responses before the first empty one, concatenated. */
  function TextBeforeEmpty(responses: seq<string>): string {
    if responses == [] || responses[0] == "" then "" else responses[0] + TextBeforeEmpty(responses[1..])
  }

  /** How many responses come before the first empty one. */
  function CountBeforeEmpty(responses: seq<string>): nat {
    if responses == [] || responses[0] == "" then 0 else 1 + CountBeforeEmpty(responses[1..])
  }

  function Min(a: nat, b: nat): nat {
    if a <= b then a else b
  }

  /**
    When the agent never asks for input, draining returns the responses up
    to the first empty one, concatenated, and sends nothing.
   */
  lemma {:induction false} DrainWithoutInput(response: string, queue: seq<string>, provideInput: string -> Option<string>)
    requires SilentBeforeEmpty(provideInput, [response] + queue)
    ensures Drain(response, queue, provideInput).output == TextBeforeEmpty([response] + queue)
    ensures Drain(response, queue, provideInput).sent == []
    decreases |queue| + (if response == "" then 0 else 1)
  {
    var all := [response] + queue;
    assert all[0] == response && all[1..] == queue;
    if response != "" {
      SilentDrainTurn(response, queue, provideInput);
      if queue != [] {
        assert [NextResponse(queue)] + AfterResponse(queue) == queue;
        DrainWithoutInput(NextResponse(queue), AfterResponse(queue), provideInput);
      }
    }
  }

  /**
    For any agent, draining returns the first response followed by every
    response it read, input responses included, in the order read.
   */
  lemma {:induction false} DrainConcatenatesReads(response: string, queue: seq<string>, provideInput: string -> Option<string>)
    ensures var d := Drain(response, queue, provideInput);
      d.output == response + Concat(queue[..|queue| - |d.rest|])
    decreases |queue| + (if response == "" then 0 else 1)
  {
    if response == "" {
      assert queue[..0] == [];
    } else {
      var message := GetInputMessage(provideInput(response));
      var afterInput := if message.Some? then AfterResponse(queue) else queue;
      DrainConcatenatesReads(NextResponse(afterInput), AfterResponse(afterInput), provideInput);
      DrainConcatTurn(response, queue, provideInput);
    }
  }

  /** One step of `DrainConcatenatesReads`, given what it states for the rest of the draining. */
  lemma DrainConcatTurn(response: string, queue: seq<string>, provideInput: string -> Option<string>)
    requires response != ""
    requires var message := GetInputMessage(provideInput(response));
      var afterInput := if message.Some? then AfterResponse(queue) else queue;
      var more := Drain(NextResponse(afterInput), AfterResponse(afterInput), provideInput);
      more.output == NextResponse(afterInput) + Concat(AfterResponse(afterInput)[..|AfterResponse(afterInput)| - |more.rest|])
    ensures var d := Drain(response, queue, provideInput);
      d.output == response + Concat(queue[..|queue| - |d.rest|])
  {
    var message := GetInputMessage(provideInput(response));
    var afterInput := if message.Some? then AfterResponse(queue) else queue;
    DrainLeavesSuffix(NextResponse(afterInput), AfterResponse(afterInput), provideInput);
    var more := Drain(NextResponse(afterInput), AfterResponse(afterInput), provideInput);
    ReadThenConcat(afterInput, more.rest);
    DrainTurn(response, queue, provideInput);
    var d := Drain(response, queue, provideInput);
    assert d.rest == more.rest;
    if message.Some? {
      assert d.output == response + NextResponse(queue) + more.output;
      DrainOutputAfterInput(response, queue, more.output, more.rest);
    } else {
      assert d.output == response + "" + more.output;
      assert response + "" == response;
    }
  }

  /** The step that sent input: its response, then the responses read after it, come straight after `response`. */
  lemma DrainOutputAfterInput(response: string, queue: seq<string>, moreOutput: string, rest: seq<string>)
    requires |rest| <= |AfterResponse(queue)| && rest == AfterResponse(queue)[|AfterResponse(queue)| - |rest|..]
    requires moreOutput == Concat(AfterResponse(queue)[..|AfterResponse(queue)| - |rest|])
    ensures |rest| <= |queue|
    ensures response + NextResponse(queue) + moreOutput == response + Concat(queue[..|queue| - |rest|])
  {
    ReadThenConcat(queue, rest);
    Seqs.AppendAssoc(response, NextResponse(queue), moreOutput);
  }

  /** Reading one response and then `k` more is reading `k + 1` from the queue's start, or nothing from an empty queue. */
  lemma ReadThenConcat(queue: seq<string>, rest: seq<string>)
    requires |rest| <= |AfterResponse(queue)| && rest == AfterResponse(queue)[|AfterResponse(queue)| - |rest|..]
    ensures |rest| <= |queue|
    ensures NextResponse(queue) + Concat(AfterResponse(queue)[..|AfterResponse(queue)| - |rest|])
         == Concat(queue[..|queue| - |rest|])
  {
    if queue != [] {
      var n := |queue| - |rest|;
      assert queue[..n] == [queue[0]] + queue[1..][..n - 1];
      assert ([queue[0]] + queue[1..][..n - 1])[1..] == queue[1..][..n - 1];
    }
  }

  /** What draining leaves unread is exactly the responses after the ones it read. */
  lemma {:induction false} DrainLeavesSuffix(response: string, queue: seq<string>, provideInput: string -> Option<string>)
    ensures var d := Drain(response, queue, provideInput); d.rest == queue[|queue| - |d.rest|..]
    decreases |queue| + (if response == "" then 0 else 1)
  {
    if response != "" {
      var message := GetInputMessage(provideInput(response));
      var afterInput := if message.Some? then AfterResponse(queue) else queue;
      DrainLeavesSuffix(NextResponse(afterInput), AfterResponse(afterInput), provideInput);
      var more := Drain(NextResponse(afterInput), AfterResponse(afterInput), provideInput);
      assert Drain(response, queue, provideInput).rest == more.rest;
      AfterResponseIsSuffix(queue);
      AfterResponseIsSuffix(afterInput);
      Seqs.SuffixOfSuffix(queue, afterInput, AfterResponse(afterInput));
      Seqs.SuffixOfSuffix(queue, AfterResponse(afterInput), more.rest);
    }
  }

  /** Reading a response leaves a suffix of the queue. */
  lemma AfterResponseIsSuffix(queue: seq<string>)
    ensures |AfterResponse(queue)| <= |queue|
    ensures AfterResponse(queue) == queue[|queue| - |AfterResponse(queue)|..]
  {
  }

  /**
    When the agent never asks for input, draining reads exactly one more
    response per non-empty one, never past the peer's last.
   */
  lemma {:induction false} DrainWithoutInputReads(response: string, queue: seq<string>, provideInput: string -> Option<string>)
    requires SilentBeforeEmpty(provideInput, [response] + queue)
    ensures |queue| - |Drain(response, queue, provideInput).rest| == Min(CountBeforeEmpty([response] + queue), |queue|)
    decreases |queue| + (if response == "" then 0 else 1)
  {
    var all := [response] + queue;
    assert all[0] == response && all[1..] == queue;
    if response != "" {
      SilentDrainTurn(response, queue, provideInput);
      if queue != [] {
        assert [NextResponse(queue)] + AfterResponse(queue) == queue;
        DrainWithoutInputReads(NextResponse(queue), AfterResponse(queue), provideInput);
      }
    }
  }

  /** The agent asks for nothing after any of `responses` before the first empty one, the only ones draining shows it. */
  predicate SilentBeforeEmpty(provideInput: string -> Option<string>, responses: seq<string>) {
    || responses == []
    || responses[0] == ""
    || (Silent(provideInput, responses[0]) && SilentBeforeEmpty(provideInput, responses[1..]))
  }

  /** One step of draining when the agent asks for nothing: no input is sent, one more response is read. */
  lemma SilentDrainTurn(response: string, queue: seq<string>, provideInput: string -> Option<string>)
    requires response != "" && Silent(provideInput, response)
    ensures var more := Drain(NextResponse(queue), AfterResponse(queue), provideInput);
      Drain(response, queue, provideInput) == Drained(response + more.output, more.sent, more.rest)
  {
    DrainTurn(response, queue, provideInput);
    assert response + "" == response;
  }

  /** A first response "partial" followed by an empty one collapses to "partial" when no input is needed. */
  lemma PartialThenEmpty(provideInput: string -> Option<string>)
    requires Silent(provideInput, "partial")
    ensures Drain("partial", [""], provideInput) == Drained("partial", [], [])
    ensures Drain("partial", ["", ""], provideInput) == Drained("partial", [], [""])
  {
    assert AfterResponse([""]) == [];
    assert AfterResponse(["", ""]) == [""];
  }

  /**
    One drain step of the recursive method: the response drained so far,
    read off the definition of `Drain`.
   */
  lemma DrainTurn(response: string, queue: seq<string>, provideInput: string -> Option<string>)
    requires response != ""
    ensures var message := GetInputMessage(provideInput(response));
      var inputResponse := if message.Some? then NextResponse(queue) else "";
      var afterInput := if message.Some? then AfterResponse(queue) else queue;
      var more := Drain(NextResponse(afterInput), AfterResponse(afterInput), provideInput);
      Drain(response, queue, provideInput)
        == Drained(response + inputResponse + more.output, (if message.Some? then [message.value] else []) + more.sent, more.rest)
  {
  }

  /** `ContainerCommandExecutor.collect_response` on the connection `client`. */
  method CollectResponse(agent: Agent, response: string, client: Client) returns (full: string)
    modifies client
    ensures old(client.sent) <= client.sent
    ensures Drain(response, old(client.responses), agent.provideInput)
         == Drained(full, client.sent[|old(client.sent)|..], client.responses)
    decreases |client.responses| + (if response == "" then 0 else 1)
  {
    if response != "" {
      DrainTurn(response, client.responses, agent.provideInput);
      ghost var sentBefore := client.sent;
      var inputMessage := GetInputMessage(agent.provideInput(response));
      var inputResponse := "";
      if inputMessage.Some? {
        inputResponse := client.SendMessage(inputMessage.value);
      }
      ghost var sentMiddle := client.sent;
      assert sentMiddle[|sentBefore|..] == if inputMessage.Some? then [inputMessage.value] else [];
      var next := client.ReadResponse();
      var additionalResponse := CollectResponse(agent, next, client);
      Seqs.SliceAcross(sentBefore, sentMiddle, client.sent);
      return response + inputResponse + additionalResponse;
    }
    assert client.sent[|old(client.sent)|..] == [];
    return "";
  }

  /** One remote command: send it, then drain from the response to the request. */
  function RunContainerCommand(queue: seq<string>, command: string, agent: Agent): Step<Request, seq<string>> {
    var d := Drain(NextResponse(queue), AfterResponse(queue), agent.provideInput);
    Step(agent.analyzeOutput(d.output), [CommandRequest(command)] + d.sent, d.rest)
  }

  /** A remote batch over one connection; one report per command. */
  function RunContainerBatch(peer: seq<string>, commands: seq<string>, agent: Agent): (b: Batch<Request, seq<string>>)
    ensures |b.reports| == |commands|
    decreases |commands|
  {
    if commands == [] then Batch([], [], peer)
    else
      var n := |commands| - 1;
      var b := RunContainerBatch(peer, commands[..n], agent);
      var s := RunContainerCommand(b.rest, commands[n], agent);
      Batch(b.reports + [s.report], b.sent + s.sent, s.rest)
  }

  lemma ContainerBatchStep(peer: seq<string>, commands: seq<string>, agent: Agent, i: nat)
    requires i < |commands|
    ensures var before := RunContainerBatch(peer, commands[..i], agent);
      var step := RunContainerCommand(before.rest, commands[i], agent);
      RunContainerBatch(peer, commands[..i + 1], agent)
        == Batch(before.reports + [step.report], before.sent + step.sent, step.rest)
  {
    assert commands[..i + 1][..i] == commands[..i];
    assert commands[..i + 1][i] == commands[i];
  }

  /** Running a prefix of the remote batch is the start of running the batch. */
  lemma {:induction false} ContainerBatchPrefix(peer: seq<string>, commands: seq<string>, agent: Agent, j: nat)
    requires j <= |commands|
    ensures var whole, part := RunContainerBatch(peer, commands, agent), RunContainerBatch(peer, commands[..j], agent);
      whole.reports[..j] == part.reports && part.sent <= whole.sent
    decreases |commands|
  {
    if j < |commands| {
      var n := |commands| - 1;
      assert commands[..n][..j] == commands[..j];
      ContainerBatchPrefix(peer, commands[..n], agent, j);
    } else {
      assert commands[..j] == commands;
    }
  }

  /** Report `i` of a remote batch is the agent's judgment of everything drained for command `i`. */
  lemma ContainerBatchPerCommand(peer: seq<string>, commands: seq<string>, agent: Agent, i: nat)
    requires i < |commands|
    ensures var whole, before := RunContainerBatch(peer, commands, agent), RunContainerBatch(peer, commands[..i], agent);
      var d := Drain(NextResponse(before.rest), AfterResponse(before.rest), agent.provideInput);
      && whole.reports[i] == agent.analyzeOutput(d.output)
      && before.sent + ([CommandRequest(commands[i])] + d.sent) <= whole.sent
  {
    var whole := RunContainerBatch(peer, commands, agent);
    var before := RunContainerBatch(peer, commands[..i], agent);
    var step := RunContainerCommand(before.rest, commands[i], agent);
    var upTo := RunContainerBatch(peer, commands[..i + 1], agent);
    ContainerBatchStep(peer, commands, agent, i);
    assert upTo.reports[i] == step.report;
    ContainerBatchPrefix(peer, commands, agent, i + 1);
    assert whole.reports[i] == whole.reports[..i + 1][i];
  }

  /** The commands among the messages sent, in order. */
  function CommandsSent(sent: seq<Request>): seq<string> {
    if sent == [] then []
    else (if sent[0].CommandRequest? then [sent[0].command] else []) + CommandsSent(sent[1..])
  }

  lemma {:induction false} CommandsSentAppend(a: seq<Request>, b: seq<Request>)
    ensures CommandsSent(a + b) == CommandsSent(a) + CommandsSent(b)
  {
    if a == [] {
      assert a + b == b;
    } else {
      assert (a + b)[0] == a[0];
      assert (a + b)[1..] == a[1..] + b;
      CommandsSentAppend(a[1..], b);
    }
  }

  lemma {:induction false} NoCommandsSent(sent: seq<Request>)
    requires forall k :: 0 <= k < |sent| ==> sent[k].InputRequest?
    ensures CommandsSent(sent) == []
  {
    if sent != [] {
      NoCommandsSent(sent[1..]);
    }
  }

  /** Over the whole connection, exactly one command request is sent per command, in order. */
  lemma {:induction false} ContainerSendsEachCommandOnce(peer: seq<string>, commands: seq<string>, agent: Agent)
    ensures CommandsSent(RunContainerBatch(peer, commands, agent).sent) == commands
    decreases |commands|
  {
    if commands != [] {
      var n := |commands| - 1;
      var b := RunContainerBatch(peer, commands[..n], agent);
      var q := b.rest;
      var d := Drain(NextResponse(q), AfterResponse(q), agent.provideInput);
      ContainerSendsEachCommandOnce(peer, commands[..n], agent);
      DrainSendsOnlyInput(NextResponse(q), AfterResponse(q), agent.provideInput);
      NoCommandsSent(d.sent);
      CommandsSentAppend([CommandRequest(commands[n])], d.sent);
      CommandsSentAppend(b.sent, [CommandRequest(commands[n])] + d.sent);
      assert CommandsSent([CommandRequest(commands[n])]) == [commands[n]];
      assert commands[..n] + [commands[n]] == commands;
    }
  }

  lemma ContainerCommandIs(queue: seq<string>, command: string, agent: Agent,
                           output: string, drained: seq<Request>, rest: seq<string>)
    requires Drain(NextResponse(queue), AfterResponse(queue), agent.provideInput) == Drained(output, drained, rest)
    ensures RunContainerCommand(queue, command, agent)
         == Step(agent.analyzeOutput(output), [CommandRequest(command)] + drained, rest)
  {
  }

  /** Running command `i` after the first `i` extends the remote batch. */
  lemma ContainerBatchExtends(peer: seq<string>, commands: seq<string>, agent: Agent, i: nat,
                              report: seq<CommandReport>, sent: seq<Request>, rest: seq<string>,
                              output: string, drained: seq<Request>, restAfter: seq<string>)
    requires i < |commands|
    requires RunContainerBatch(peer, commands[..i], agent) == Batch(report, sent, rest)
    requires Drain(NextResponse(rest), AfterResponse(rest), agent.provideInput) == Drained(output, drained, restAfter)
    ensures RunContainerBatch(peer, commands[..i + 1], agent)
         == Batch(report + [agent.analyzeOutput(output)], sent + ([CommandRequest(commands[i])] + drained), restAfter)
  {
    ContainerBatchStep(peer, commands, agent, i);
    ContainerCommandIs(rest, commands[i], agent, output, drained, restAfter);
  }

  /**
    `ContainerCommandExecutor.execute_commands_sync`: open one connection for
    the whole batch and, per command, send it and drain what comes back.
   */
  method ContainerExecuteCommandsSync(agent: Agent, peer: seq<string>, commands: seq<string>)
    returns (report: seq<CommandReport>, client: Client)
    ensures fresh(client)
    ensures RunContainerBatch(peer, commands, agent) == Batch(report, client.sent, client.responses)
  {
    client := new Client(peer);
    report := [];
    for i := 0 to |commands|
      invariant RunContainerBatch(peer, commands[..i], agent) == Batch(report, client.sent, client.responses)
    {
      ghost var sentBefore := client.sent;
      ghost var restBefore := client.responses;
      var response := client.SendMessage(CommandRequest(commands[i]));
      ghost var sentMiddle := client.sent;
      response := CollectResponse(agent, response, client);
      ghost var drained := client.sent[|sentMiddle|..];
      Seqs.AppendedAfter(sentBefore, [CommandRequest(commands[i])], sentMiddle, client.sent);
      ContainerBatchExtends(peer, commands, agent, i, report, sentBefore, restBefore,
                            response, drained, client.responses);
      var agentOutput := agent.analyzeOutput(response);
      report := report + [agentOutput];
    }
    assert commands[..|commands|] == commands;
  }
}
