# breba-docs pipeline core, modelled in Dafny

breba-docs checks a documentation file by trying out the commands it describes. A chat model reads the
document and lists the goals a reader could reach from a terminal. For each goal, the model gives a
comma-separated list of commands. The commands run in a container. A second agent judges each command's
output, and for every command that did not succeed it asks for repair commands (`sed` edits of the
document), which run in a local shell.

This project models three parts of that core.

- **The command executors.** The output collector reads a shell's output chunk by chunk until it sees the
  completion marker, a timeout, or the end of output. The local executor echoes each command, submits it
  wrapped as `<command> && echo Completed <id>`, and alternates collecting output with asking the agent
  whether the command waits for input, typing any answer it gives. The remote executor sends one command
  request per command over a single connection and keeps draining responses, sending input when the agent
  asks for it, until an empty response comes back.
- **The goal graph.** The nodes `identify_goals`, `identify_commands`, `execute_commands` and
  `execute_mutator_commands` each map the pipeline state (messages, goals, goal reports) to a new state. The
  edges between them form an explicit state machine, which loops back while goals remain.
- **The assistant wrapper.** `do_run` keeps a reply only when the run completed; `provide_input` is a
  three-question cascade; `fetch_commands` splits a reply on commas and strips each piece.

Each shell channel is a finite script of read events: a chunk of text, a timeout, or end of output. End of
output is sticky, and an exhausted script reads as end of output. The remote peer is a finite list of
responses, and an exhausted peer answers `""`. The agent's judgments, the chat model's replies, goal
decoding, repair-command proposals, command ids and shell quoting are all function parameters.

Imperative code stays imperative.

- `collect_output`, both `execute_commands_sync` and `execute_mutator_commands` are methods with loops.
- `collect_response` is a recursive method.
- The process, the socket client and the assistant client are classes whose fields the methods update.

Each method is proved equal to a pure specification function (`Collect`, `Interact`/`RunLocalBatch`,
`Drain`, `RunContainerBatch`, `MutatorStep`). The lemmas state the program's properties about that function.

Modules and files:

| file | module | models |
|---|---|---|
| `wrappers.dfy` | `Wrappers` | `Option`, `Result` |
| `seqs.dfy` | `Seqs` | facts about sequences shared by the proofs |
| `text.dfy` | `Text` | Python's `in` on strings, `str.strip`, `str.split`, and the split-and-strip parse |
| `reports.dfy` | `Reports` | `CommandReport`, `GoalReport` |
| `openai_agent.dfy` | `OpenAI` | `breba_docs/services/openai_agent.py` |
| `command_executor.dfy` | `CommandExecutor` | `breba_docs/services/command_executor.py` |
| `graph_agent.dfy` | `GraphAgent` | `breba_docs/agent/graph_agent.py` |

## Model

| member | source | states |
|---|---|---|
| Text.Split | breba_docs/services/openai_agent.py:188 | `str.split` on one separator gives at least one piece, and no piece contains the separator |
| Text.JoinSplit | breba_docs/services/openai_agent.py:188 | joining the pieces of a split with the separator gives back the original text |
| Text.SplitJoin | breba_docs/services/openai_agent.py:188 | splitting a join of separator-free pieces gives back the pieces |
| Text.SplitCount | breba_docs/services/openai_agent.py:188 | a split has exactly one piece more than the text has separators |
| Text.StripLeft | breba_docs/services/openai_agent.py:188 | left-stripping keeps a suffix of the text that does not start with whitespace |
| Text.StripLeftRemovesSpace | breba_docs/services/openai_agent.py:188 | everything left-stripping removes is whitespace |
| Text.StripRight | breba_docs/services/openai_agent.py:188 | right-stripping keeps a prefix of the text that does not end with whitespace |
| Text.StripRightRemovesSpace | breba_docs/services/openai_agent.py:188 | everything right-stripping removes is whitespace |
| Text.StripIsTrimmedSlice | breba_docs/services/openai_agent.py:188 | `strip()` returns a contiguous slice of its input, with only whitespace around it, and the result is trimmed |
| Text.StripFixedIffTrimmed | breba_docs/services/openai_agent.py:188 | `strip()` leaves a string unchanged exactly when it has no leading or trailing whitespace |
| Text.StripIdempotent | breba_docs/services/openai_agent.py:188 | stripping twice is stripping once |
| Text.SplitStripShape | breba_docs/agent/graph_agent.py:96 | the split-and-strip parse has one element per comma plus one, each trimmed and comma-free |
| Text.SplitStripEmpty | breba_docs/agent/graph_agent.py:96 | an empty reply parses as one empty command, not as no commands |
| Reports.PendingReports | breba_docs/agent/graph_agent.py:98 | one pending report per command, in order, with success and insights unset |
| Reports.CommandsOf | breba_docs/agent/graph_agent.py:73 | the commands of the reports, one per report, in order |
| Reports.CommandsOfPending | breba_docs/agent/graph_agent.py:73-98 | reading the commands back out of freshly identified reports gives the identified commands |
| OpenAI.Reply | breba_docs/services/openai_agent.py:163-168 | a run yields a reply exactly when its status is `'completed'`, and the reply is the thread's last message |
| OpenAI.CascadeDecides | breba_docs/services/openai_agent.py:196-208 | `provide_input` answers `"breba-noop"` unless the first two replies are exactly `"Yes"`, and then returns the third reply verbatim |
| OpenAI.CallsMadeBounds | breba_docs/services/openai_agent.py:198-206 | one, two or three runs; a second only after a `"Yes"`, a third only after two |
| OpenAI.FetchCommands | breba_docs/services/openai_agent.py:178-188 | no reply is an error; otherwise one trimmed command per comma plus one |
| OpenAI.FetchCommandsEmptyReply | breba_docs/services/openai_agent.py:188 | an empty reply gives `[""]` |
| OpenAI.OpenAIAgent.DoRun | breba_docs/services/openai_agent.py:142-168 | opens a thread only when asked, posts the prompt on the current thread, and yields `Reply` of the run |
| OpenAI.OpenAIAgent.ProvideInput | breba_docs/services/openai_agent.py:196-208 | returns the cascade of its runs' replies; only the first run opens a thread; it posts 1, 2 or 3 messages, all on that thread: the output question, then the verification question, then the answer question |
| CommandExecutor.Process.ReadNonblocking | breba_docs/services/command_executor.py:26 | reads the next event of the shell's output; end of output stays |
| CommandExecutor.Process.SendLine | breba_docs/services/command_executor.py:68 | appends one line to what was sent |
| CommandExecutor.Collect | breba_docs/services/command_executor.py:21-38 | a collection never reads more than the script holds, and returning text means it read something |
| CommandExecutor.CollectOutput | breba_docs/services/command_executor.py:21-38 | the loop returns what `Collect` describes and leaves exactly the events `Collect` leaves |
| CommandExecutor.CollectLeavesSuffix | breba_docs/services/command_executor.py:26 | what a collection leaves unread is the suffix after the events it read |
| CommandExecutor.CollectIsConcatenation | breba_docs/services/command_executor.py:27 | the collected output is the concatenation of the chunks read, in order |
| CommandExecutor.CollectPassesOnlyMarkerlessChunks | breba_docs/services/command_executor.py:29-31 | every event read before the last is a chunk that does not contain the marker |
| CommandExecutor.CollectStopReason | breba_docs/services/command_executor.py:29-37 | a collection stops right after a marker chunk, right after a timeout, or at end of output, and never uses up an end of output; a first timeout gives `""` |
| CommandExecutor.SplitMarkerIsNotSeen | breba_docs/services/command_executor.py:29 | a marker split across two chunks is not detected, and collection reads on to the timeout |
| CommandExecutor.CollectPastShortChunk | breba_docs/services/command_executor.py:29 | a chunk shorter than the marker never stops collection |
| CommandExecutor.GetInputText | breba_docs/services/command_executor.py:46-52 | there is text to type exactly when the agent answered something other than `"breba-noop"` or `""`, and it is that answer |
| CommandExecutor.GetInputMessage | breba_docs/services/command_executor.py:91-96 | the same decision as `get_input_text`, as an input message carrying the answer |
| CommandExecutor.TypedInputNeedsTwoYes | breba_docs/services/command_executor.py:46-52 | input is typed exactly when both checks of `provide_input` said `"Yes"` and the third reply is a real answer |
| CommandExecutor.Interact | breba_docs/services/command_executor.py:70-80 | the inner loop never reads past the script and never types an empty or sentinel input |
| CommandExecutor.CollectTurns | breba_docs/services/command_executor.py:71-80 | the inner loop's collections that returned text, each non-empty, and where the final collection starts, never past the script |
| CommandExecutor.InteractSplicesInputs | breba_docs/services/command_executor.py:70-80 | for any agent, the recorded output is the chunk text read with each typed answer and a line separator spliced in after the collection that prompted it; the inputs typed are those answers; the loop ends only on a collection that returned `""`, read where the previous one stopped |
| CommandExecutor.InteractRecordsAnswers | breba_docs/services/command_executor.py:73-78 | the recorded output and the typed inputs are the collections with their answers spliced in |
| CommandExecutor.InteractReadsTurns | breba_docs/services/command_executor.py:71-80 | the collections concatenate to the chunk text read, and the last collection returns nothing and leaves what the loop leaves |
| CommandExecutor.SplicedLength | breba_docs/services/command_executor.py:77 | splicing adds exactly each answer and one line separator per answer |
| CommandExecutor.InteractOutputLength | breba_docs/services/command_executor.py:70-80 | a command's recorded output is as long as the chunk text read plus every typed input with its line separator |
| CommandExecutor.NoopKeepsCollecting | breba_docs/services/command_executor.py:74-78 | a `"breba-noop"` answer after non-empty output types nothing and collects again |
| CommandExecutor.InteractWithoutInput | breba_docs/services/command_executor.py:70-80 | when the agent never asks for input, a command's output is the text of all chunks read, and nothing is typed |
| CommandExecutor.InteractLoop | breba_docs/services/command_executor.py:70-80 | the loop's output, typed lines and remaining script are exactly those of `Interact` |
| CommandExecutor.RunLocalBatch | breba_docs/services/command_executor.py:59-84 | one report per command |
| CommandExecutor.LocalBatchPrefix | breba_docs/services/command_executor.py:60-82 | running the first commands of a batch gives the first reports and a prefix of the lines sent |
| CommandExecutor.LocalBatchPerCommand | breba_docs/services/command_executor.py:60-82 | report `i` judges command `i`'s interaction, which starts where command `i - 1`'s ended; the echo line, the wrapped command and the typed inputs are sent in that order |
| CommandExecutor.LocalExecuteCommandsSync | breba_docs/services/command_executor.py:54-84 | the method's reports, lines sent and remaining output are those of `RunLocalBatch` |
| CommandExecutor.Client.SendMessage | breba_docs/services/command_executor.py:131 | sends one message and reads the peer's next response |
| CommandExecutor.Client.ReadResponse | breba_docs/services/command_executor.py:120 | reads the peer's next response without sending |
| CommandExecutor.Drain | breba_docs/services/command_executor.py:98-123 | draining never reads more responses than the peer has |
| CommandExecutor.DrainSendsOnlyInput | breba_docs/services/command_executor.py:113-116 | draining only ever sends input messages |
| CommandExecutor.DrainWithoutInput | breba_docs/services/command_executor.py:112-123 | when the agent asks for no input after any response before the first empty one, the result is the responses up to the first empty one, concatenated, and nothing is sent |
| CommandExecutor.DrainWithoutInputReads | breba_docs/services/command_executor.py:117-120 | when the agent asks for no input after any response before the first empty one, draining reads one more response per non-empty one, never past the peer's last |
| CommandExecutor.DrainConcatenatesReads | breba_docs/services/command_executor.py:109-123 | for any agent, the full response is the first response followed by every response read, input responses included, in the order read |
| CommandExecutor.DrainLeavesSuffix | breba_docs/services/command_executor.py:116-120 | what draining leaves unread is the suffix after the responses it read |
| CommandExecutor.PartialThenEmpty | breba_docs/services/command_executor.py:112-123 | a `"partial"` response followed by an empty one collapses to `"partial"` and reads nothing more |
| CommandExecutor.CollectResponse | breba_docs/services/command_executor.py:98-123 | the recursion returns what `Drain` describes, sends exactly its messages and leaves its remaining responses |
| CommandExecutor.RunContainerBatch | breba_docs/services/command_executor.py:126-135 | one report per command |
| CommandExecutor.ContainerBatchPrefix | breba_docs/services/command_executor.py:129-134 | running the first commands of a batch gives the first reports and a prefix of the messages sent |
| CommandExecutor.ContainerBatchPerCommand | breba_docs/services/command_executor.py:129-134 | report `i` judges what was drained after command `i`'s request; the request and its input messages are sent in that order |
| CommandExecutor.ContainerSendsEachCommandOnce | breba_docs/services/command_executor.py:128-131 | over the whole connection, exactly one command request is sent per command, in order |
| CommandExecutor.ContainerExecuteCommandsSync | breba_docs/services/command_executor.py:125-135 | the method's reports, messages sent and remaining responses are those of `RunContainerBatch` |
| GraphAgent.IdentifyGoals | breba_docs/agent/graph_agent.py:111-133 | fails exactly when the reply does not decode; otherwise replaces the goals with the decoded list, keeps the reports, and extends the messages around the old ones with the instructions before them and the question and the reply after them |
| GraphAgent.IdentifiedReport | breba_docs/agent/graph_agent.py:96-99 | for a goal with both keys, the report carries its name and description and one pending, trimmed command per comma-separated piece of the reply, in order |
| GraphAgent.IdentifyCommands | breba_docs/agent/graph_agent.py:85-109 | an index error when no goals are left and a key error when the first goal lacks `name` or `description`; otherwise drops exactly the first goal, keeps every earlier report, appends exactly its report, and resets the conversation to that goal's three messages |
| GraphAgent.ExecutedReport | breba_docs/agent/graph_agent.py:77 | same name and description, and no repair reports |
| GraphAgent.ExecuteCommands | breba_docs/agent/graph_agent.py:70-82 | an index error exactly when there are no reports; otherwise keeps goals, messages, the number of reports and every report but the last, and replaces the last with its executed form |
| GraphAgent.ExecuteCommandsFeedsLastCommands | breba_docs/agent/graph_agent.py:72-77 | the container executor is sent the last report's commands once each, in order, and returns one report per command |
| GraphAgent.Failing | breba_docs/agent/graph_agent.py:62-63 | never selects more reports than there are |
| GraphAgent.FailingMembers | breba_docs/agent/graph_agent.py:62-63 | a report is selected for repair exactly when it is one of the reports and its success is not `True` |
| GraphAgent.FailingAppend | breba_docs/agent/graph_agent.py:62-63 | selection goes report by report, keeping their order |
| GraphAgent.FailingOfSuccesses | breba_docs/agent/graph_agent.py:62-63 | when every command succeeded, no repair is requested |
| GraphAgent.FixReportsFollowFailing | breba_docs/agent/graph_agent.py:62-66 | the repair reports are the local batches of the failing reports' repair commands, concatenated in order |
| GraphAgent.MutatorStepShape | breba_docs/agent/graph_agent.py:59-68 | an index error exactly when there are no reports; otherwise keeps goals, messages, the number of reports, every earlier report, and the last one's goal and command reports, and extends its repair reports by one batch per failing command |
| GraphAgent.ExecuteMutatorCommands | breba_docs/agent/graph_agent.py:59-68 | the loop's state is `MutatorStep`'s, and it requests repairs for exactly the failing reports, in order |
| GraphAgent.RoutingAfterRepair | breba_docs/agent/graph_agent.py:44-57 | after the repair step the graph goes back to identifying commands exactly when goals remain, and otherwise ends |
| GraphAgent.RunNode | breba_docs/agent/graph_agent.py:35-49 | identifying commands consumes one goal; executing and repairing keep the goals |
| GraphAgent.ProcessedAll | breba_docs/agent/graph_agent.py:40-49 | one final report per goal |
| GraphAgent.ProcessedAllInOrder | breba_docs/agent/graph_agent.py:40-49 | final report `k` belongs to goal `k` |
| GraphAgent.CycleConsumesOneGoal | breba_docs/agent/graph_agent.py:40-49 | one identify, execute and repair cycle consumes exactly the first goal and appends exactly its final report |
| GraphAgent.RunFromIdentifyCommands | breba_docs/agent/graph_agent.py:40-49 | from identifying commands, the loop runs once per goal and, when every goal has both keys, ends with no goals and one final report per goal in order; with no goals it is an index error, and a goal without a key makes it a key error |
| GraphAgent.ProcessedAllSnoc | breba_docs/agent/graph_agent.py:104-106 | processing one more goal appends exactly its final report |
| GraphAgent.RunPassesThroughGoals | breba_docs/agent/graph_agent.py:40-49 | with the first `k` goals well-formed and more left, the run passes through the state in which those `k` goals are fully executed and repaired, so a later goal without a key fails the run only after their commands ran |
| GraphAgent.InvokeOutcome | breba_docs/agent/graph_agent.py:53-54 | a whole run succeeds exactly when the goals reply decodes to a non-empty list of goals that all have both keys, fails with a key error when one lacks a key, and on success ends with no goals and one final report per goal, in order |

## Left out

- The OpenAI and LangChain clients are not modelled. This covers assistant and thread creation, message posting, polling, `get_last_message`, `close` and the prompt texts. They are remote services: each run's status and last message are inputs, and the chat model is a function from messages to a reply.
- `fetch_goals` and `analyze_output` are not modelled. They are a remote run followed by decoding its text, and the executors take `analyze_output` as a function parameter.
- `fetch_modify_file_commands` is a function parameter. It reads a file and decodes JSON through a library.
- `json.loads` of the goals reply is not modelled: it is parsing untrusted text through a library. It is a function that may fail, and failure is the `GoalsUnreadable` error. A decoded goal keeps only whether it has a `name` and a `description` key and their values; an entry that is not an object, or whose values are not strings, is not modelled.
- `json.dumps` of a goal and of a socket message are not modelled. The goal text is a parameter, and messages are a datatype.
- `pexpect.spawn`, `time.sleep` and read timeouts are not modelled: they are process I/O and wall-clock time. A shell is a finite script of events.
- The startup read at `breba_docs/services/command_executor.py:58` is not modelled. The script starts after it. In the program this read raises when the shell prints nothing within half a second.
- The script does not depend on what is typed into the shell or sent to the peer. Replies that depend on the input are outside the model.
- `uuid.uuid4()` is not modelled: it is randomness. Command ids are a function of the command's position, and marker uniqueness is not claimed.
- `shlex.quote` is not modelled: it is library behaviour. It is a function parameter.
- `os.linesep` is taken to be `"\n"`.
- The socket `Client` internals are outside the model: that code is not part of this model. A connection is a queue of responses and a log of messages sent.
- LangGraph itself is not modelled: it is framework code. The routing is the explicit `Successor` function. A node's returned keys replace the same keys of the state, and the other keys keep their values.
- GraphAgent.Run: runs the goal loop with no step bound. A compiled LangGraph graph stops after the framework's own recursion limit of node steps (25 unless configured), and a run takes 1 + 3 × (number of goals) steps, so about nine goals or more stop the real `invoke` with an error that the model does not have.
- `GoalReport` comes from `breba_docs/services/reports.py`, which is not part of this model. It is taken to have a `modify_command_reports` list that defaults to empty.
- `dataclasses.replace` at `breba_docs/agent/graph_agent.py:60` is shallow, so `+=` also grows the list of the report in the previous state. Reports are values here, so that aliasing is not captured.
- The `print` logging is not modelled: it is console output.
- GraphAgent.ExecuteMutatorCommands: requires `ExecutorsModelled`, which says the collaborators' `runLocal` is the modelled local executor. The graph's functions hold for any executors.
- The output collector checks for the marker in the current chunk only, not in the text gathered so far. The model follows the code, and `SplitMarkerIsNotSeen` states the consequence.
- A `"breba-noop"` answer does not end the local inner loop in the code: it collects again. The model follows the code, and `NoopKeepsCollecting` states this.
