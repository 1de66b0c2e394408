/**
  The per-goal pipeline: identify the document's goals, then for each goal
  identify its commands, run them in the container, and run repair commands
  locally for the ones that failed. Each node maps the pipeline state to a
  new state; the wiring between the nodes is an explicit state machine.
 */
module GraphAgent {
  import opened Wrappers
  import opened Reports
  import Text
  import CommandExecutor
  import Seqs

  /**
    A decoded goal as the pipeline reads it: the values of its `name` and
    `description` keys, either of which the decoded object may lack. Its
    other keys are not modelled.
   */
  datatype Goal = Goal(name: Option<string>, description: Option<string>)

  /** Both keys `identify_commands` reads are present. */
  predicate HasKeys(g: Goal) {
    g.name.Some? && g.description.Some?
  }

  /** Every goal carries both keys. */
  predicate AllHaveKeys(goals: seq<Goal>) {
    forall k :: 0 <= k < |goals| ==> HasKeys(goals[k])
  }

  /** The conversation kept in the state; the model's replies are `ModelMessage`s. */
  datatype Message = SystemMessage(content: string) | HumanMessage(content: string) | ModelMessage(content: string)

  /** The state the nodes pass along. */
  datatype AgentState = AgentState(messages: seq<Message>, goals: seq<Goal>, goalReports: seq<GoalReport>)

  /**
    Why a run stops early: indexing an empty list (`goals[0]`,
    `goal_reports[-1]`), a goal without a `name` or `description` key, or a
    goals reply that does not decode to a list of goals.
   */
  datatype Failure = IndexError | KeyError | GoalsUnreadable

  /**
    Everything outside the pipeline that its nodes consult: the chat model,
    the instructions built from the document, the decoding and encoding of
    goals, the repair commands the agent proposes for a failed command, the
    two executors, and what the container and local shells answer. The
    pipeline's properties hold for any executors; `ExecutorsModelled` says
    that they are the ones modelled in `CommandExecutor`.
   */
  datatype Collaborators = Collaborators(
    model: seq<Message> -> string,
    goalsInstructions: string,
    commandsInstructions: string,
    parseGoals: string -> Option<seq<Goal>>,
    goalJson: Goal -> string,
    fetchFix: CommandReport -> seq<string>,
    runRemote: seq<string> -> seq<CommandReport>,
    runLocal: seq<string> -> seq<CommandReport>,
    agent: CommandExecutor.Agent,
    containerPeer: seq<string> -> seq<string>,
    localShell: seq<string> -> seq<CommandExecutor.ReadEvent>,
    ids: nat -> string,
    quote: string -> string)

  const GoalsQuestion := "What are my goals for this document?"
  const CommandsRequest := "Give me commands for this goal: "

  /** The initial state `invoke` starts from. */
  const Initial := AgentState([], [], [])

  // ---------------------------------------------------------------------------
  // The executors as the nodes use them
  // ---------------------------------------------------------------------------

  /** The reports of the modelled container executor on `commands`. */
  function RemoteReports(co: Collaborators, commands: seq<string>): seq<CommandReport> {
    CommandExecutor.RunContainerBatch(co.containerPeer(commands), commands, co.agent).reports
  }

  /** The reports of the modelled local executor on `commands`. */
  function LocalReports(co: Collaborators, commands: seq<string>): seq<CommandReport> {
    CommandExecutor.RunLocalBatch(co.localShell(commands), commands, co.ids, co.quote, co.agent).reports
  }

  /**
    `runRemote` is `ContainerCommandExecutor(agent).execute_commands_sync`
    and `runLocal` is `LocalCommandExecutor(agent).execute_commands_sync`,
    each over the channel the collaborators provide for the batch.
   */
  ghost predicate ExecutorsModelled(co: Collaborators) {
    && (forall commands {:trigger RemoteReports(co, commands)} :: co.runRemote(commands) == RemoteReports(co, commands))
    && (forall commands {:trigger LocalReports(co, commands)} :: co.runLocal(commands) == LocalReports(co, commands))
  }

  // ---------------------------------------------------------------------------
  // identify_goals
  // ---------------------------------------------------------------------------

  /** The messages the model is asked about the goals: instructions, the history, the question. */
  function GoalsConversation(s: AgentState, co: Collaborators): seq<Message> {
    [SystemMessage(co.goalsInstructions)] + s.messages + [HumanMessage(GoalsQuestion)]
  }

  /**
    `identify_goals`: ask the model for the document's goals and replace the
    goal list with what its reply decodes to. The reports are left alone.
   */
  function IdentifyGoals(s: AgentState, co: Collaborators): (r: Result<AgentState, Failure>)
    ensures r.Ok? <==> co.parseGoals(co.model(GoalsConversation(s, co))).Some?
    ensures r.Ok? ==>
      && r.value.goals == co.parseGoals(co.model(GoalsConversation(s, co))).value
      && r.value.goalReports == s.goalReports
      && |r.value.messages| == |s.messages| + 3
      && r.value.messages[1..|s.messages| + 1] == s.messages
      && r.value.messages[0] == SystemMessage(co.goalsInstructions)
      && r.value.messages[|s.messages| + 1] == HumanMessage(GoalsQuestion)
      && r.value.messages[|s.messages| + 2] == ModelMessage(co.model(GoalsConversation(s, co)))
  {
    var conversation := GoalsConversation(s, co);
    var reply := co.model(conversation);
    match co.parseGoals(reply)
    case None => Err(GoalsUnreadable)
    case Some(goals) =>
      assert (conversation + [ModelMessage(reply)])[1..|s.messages| + 1] == s.messages;
      Ok(AgentState(conversation + [ModelMessage(reply)], goals, s.goalReports))
  }

  // ---------------------------------------------------------------------------
  // identify_commands
  // ---------------------------------------------------------------------------

  /** The first two messages of a goal's fresh conversation. */
  function CommandsQuestion(g: Goal, co: Collaborators): seq<Message> {
    [SystemMessage(co.commandsInstructions), HumanMessage(CommandsRequest + co.goalJson(g))]
  }

  /** What the model answers when asked for a goal's commands. */
  function CommandsReply(g: Goal, co: Collaborators): string {
    co.model(CommandsQuestion(g, co))
  }

  /** A goal's whole conversation: the question and the model's answer, nothing older. */
  function CommandsConversation(g: Goal, co: Collaborators): seq<Message> {
    CommandsQuestion(g, co) + [ModelMessage(CommandsReply(g, co))]
  }

  /**
    The report made for a goal when its commands are identified: the goal's
    name and description, and one pending report per comma-separated,
    stripped piece of the model's answer, in order.
   */
  function IdentifiedReport(g: Goal, co: Collaborators): (r: GoalReport)
    requires HasKeys(g)
    ensures r.goalName == g.name.value && r.goalDescription == g.description.value
    ensures CommandsOf(r.commandReports) == Text.SplitStrip(CommandsReply(g, co))
    ensures |r.commandReports| == Text.Count(CommandsReply(g, co), ',') + 1
    ensures forall k :: 0 <= k < |r.commandReports| ==>
      r.commandReports[k].success.None? && r.commandReports[k].insights.None? && Text.Trimmed(r.commandReports[k].command)
    ensures r.modifyCommandReports == []
  {
    var commands := Text.SplitStrip(CommandsReply(g, co));
    Text.SplitStripShape(CommandsReply(g, co));
    CommandsOfPending(commands);
    GoalReport(g.name.value, g.description.value, PendingReports(commands), [])
  }

  /**
    `identify_commands`: take the first goal, start a clean conversation for
    it, drop it from the goals and append its report. An empty goal list is
    an index error, and a first goal without a name or a description a key
    error.
   */
  function IdentifyCommands(s: AgentState, co: Collaborators): (r: Result<AgentState, Failure>)
    ensures r.Ok? <==> s.goals != [] && HasKeys(s.goals[0])
    ensures s.goals == [] ==> r == Err(IndexError)
    ensures s.goals != [] && !HasKeys(s.goals[0]) ==> r == Err(KeyError)
    ensures r.Ok? ==>
      && r.value.goals == s.goals[1..]
      && |r.value.goalReports| == |s.goalReports| + 1
      && r.value.goalReports[..|s.goalReports|] == s.goalReports
      && r.value.goalReports[|s.goalReports|] == IdentifiedReport(s.goals[0], co)
      && r.value.messages == CommandsConversation(s.goals[0], co)
  {
    if s.goals == [] then Err(IndexError)
    else if !HasKeys(s.goals[0]) then Err(KeyError)
    else
      var g := s.goals[0];
      assert (s.goalReports + [IdentifiedReport(g, co)])[..|s.goalReports|] == s.goalReports;
      Ok(AgentState(CommandsConversation(g, co), s.goals[1..], s.goalReports + [IdentifiedReport(g, co)]))
  }

  // ---------------------------------------------------------------------------
  // execute_commands
  // ---------------------------------------------------------------------------

  /**
    The last report once its commands have run in the container: same goal,
    fresh command reports from the executor, and (as a new report) no repair
    reports.
   */
  function ExecutedReport(gr: GoalReport, co: Collaborators): (r: GoalReport)
    ensures r.goalName == gr.goalName && r.goalDescription == gr.goalDescription
    ensures r.modifyCommandReports == []
  {
    GoalReport(gr.goalName, gr.goalDescription, co.runRemote(CommandsOf(gr.commandReports)), [])
  }

  /**
    `execute_commands`: run the last report's commands and put the result in
    its place. An empty report list is an index error.
   */
  function ExecuteCommands(s: AgentState, co: Collaborators): (r: Result<AgentState, Failure>)
    ensures r.Ok? <==> s.goalReports != []
    ensures r.Ok? ==>
      var n := |s.goalReports|;
      && r.value.goals == s.goals && r.value.messages == s.messages
      && |r.value.goalReports| == n
      && r.value.goalReports[..n - 1] == s.goalReports[..n - 1]
      && r.value.goalReports[n - 1] == ExecutedReport(s.goalReports[n - 1], co)
  {
    if s.goalReports == [] then Err(IndexError)
    else
      var n := |s.goalReports|;
      var updated := s.goalReports[..n - 1] + [ExecutedReport(s.goalReports[n - 1], co)];
      assert updated[..n - 1] == s.goalReports[..n - 1];
      Ok(s.(goalReports := updated))
  }

  /**
    With the modelled container executor, the last report's commands are
    sent to the container exactly once each, in order, and the new command
    reports are the executor's, one per command.
   */
  lemma ExecuteCommandsFeedsLastCommands(s: AgentState, co: Collaborators)
    requires ExecutorsModelled(co) && s.goalReports != []
    ensures var n := |s.goalReports|;
      var commands := CommandsOf(s.goalReports[n - 1].commandReports);
      var batch := CommandExecutor.RunContainerBatch(co.containerPeer(commands), commands, co.agent);
      && ExecuteCommands(s, co).value.goalReports[n - 1].commandReports == batch.reports
      && |batch.reports| == |commands|
      && CommandExecutor.CommandsSent(batch.sent) == commands
  {
    var commands := CommandsOf(s.goalReports[|s.goalReports| - 1].commandReports);
    assert co.runRemote(commands) == RemoteReports(co, commands);
    CommandExecutor.ContainerSendsEachCommandOnce(co.containerPeer(commands), commands, co.agent);
  }

  // ---------------------------------------------------------------------------
  // execute_mutator_commands
  // ---------------------------------------------------------------------------

  /** The reports whose `success` is falsy (`None` or `False`), in order. */
  function Failing(reports: seq<CommandReport>): (failing: seq<CommandReport>)
    ensures |failing| <= |reports|
  {
    if reports == [] then []
    else
      var n := |reports| - 1;
      Failing(reports[..n]) + (if IsSuccess(reports[n]) then [] else [reports[n]])
  }

  /** Exactly the failing reports are selected. */
  lemma {:induction false} FailingMembers(reports: seq<CommandReport>, r: CommandReport)
    ensures r in Failing(reports) <==> r in reports && !IsSuccess(r)
  {
    if reports != [] {
      var n := |reports| - 1;
      FailingMembers(reports[..n], r);
      assert reports == reports[..n] + [reports[n]];
    }
  }

  /** Selecting the failing reports of two lists, one after the other, is selecting from their concatenation. */
  lemma {:induction false} FailingAppend(a: seq<CommandReport>, b: seq<CommandReport>)
    ensures Failing(a + b) == Failing(a) + Failing(b)
    decreases |b|
  {
    if b == [] {
      assert a + b == a;
    } else {
      var n := |b| - 1;
      assert (a + b)[..|a| + n] == a + b[..n];
      assert (a + b)[|a| + n] == b[n];
      FailingAppend(a, b[..n]);
    }
  }

  /** When every command succeeded, nothing is selected for repair. */
  lemma {:induction false} FailingOfSuccesses(reports: seq<CommandReport>)
    requires forall k :: 0 <= k < |reports| ==> IsSuccess(reports[k])
    ensures Failing(reports) == []
  {
    if reports != [] {
      FailingOfSuccesses(reports[..|reports| - 1]);
    }
  }

  /** The repair reports gathered for a list of command reports: one local batch per failing report, in order. */
  function FixReports(reports: seq<CommandReport>, co: Collaborators): seq<CommandReport> {
    if reports == [] then []
    else
      var n := |reports| - 1;
      FixReports(reports[..n], co) + (if IsSuccess(reports[n]) then [] else co.runLocal(co.fetchFix(reports[n])))
  }

  /** Concatenation of a list of batches. */
  function Flatten(batches: seq<seq<CommandReport>>): seq<CommandReport> {
    if batches == [] then [] else Flatten(batches[..|batches| - 1]) + batches[|batches| - 1]
  }

  /** The local batch run for each of `failing`, in order. */
  function FixBatches(failing: seq<CommandReport>, co: Collaborators): (batches: seq<seq<CommandReport>>)
    ensures |batches| == |failing|
    ensures forall k :: 0 <= k < |failing| ==> batches[k] == co.runLocal(co.fetchFix(failing[k]))
  {
    seq(|failing|, k requires 0 <= k < |failing| => co.runLocal(co.fetchFix(failing[k])))
  }

  /** The repair reports are the failing reports' repair batches, concatenated in order. */
  lemma {:induction false} FixReportsFollowFailing(reports: seq<CommandReport>, co: Collaborators)
    ensures FixReports(reports, co) == Flatten(FixBatches(Failing(reports), co))
  {
    if reports != [] {
      var n := |reports| - 1;
      FixReportsFollowFailing(reports[..n], co);
      var batch := co.runLocal(co.fetchFix(reports[n]));
      if !IsSuccess(reports[n]) {
        assert Failing(reports) == Failing(reports[..n]) + [reports[n]];
        assert FixReports(reports, co) == FixReports(reports[..n], co) + batch;
        FixBatchesSnoc(Failing(reports[..n]), reports[n], co);
        FlattenSnoc(FixBatches(Failing(reports[..n]), co), batch);
      } else {
        assert Failing(reports) == Failing(reports[..n]) + [] == Failing(reports[..n]);
        assert FixReports(reports, co) == FixReports(reports[..n], co) + [] == FixReports(reports[..n], co);
      }
    }
  }

  lemma FixBatchesSnoc(failing: seq<CommandReport>, r: CommandReport, co: Collaborators)
    ensures FixBatches(failing + [r], co) == FixBatches(failing, co) + [co.runLocal(co.fetchFix(r))]
  {
    var whole, part := FixBatches(failing + [r], co), FixBatches(failing, co);
    assert forall k :: 0 <= k < |failing| ==> (failing + [r])[k] == failing[k];
    assert whole[|failing|] == co.runLocal(co.fetchFix(r));
  }

  lemma FlattenSnoc(batches: seq<seq<CommandReport>>, batch: seq<CommandReport>)
    ensures Flatten(batches + [batch]) == Flatten(batches) + batch
  {
    assert (batches + [batch])[..|batches|] == batches;
  }

  /** The last report once its failing commands have been repaired. */
  function MutatedReport(gr: GoalReport, co: Collaborators): GoalReport {
    gr.(modifyCommandReports := gr.modifyCommandReports + FixReports(gr.commandReports, co))
  }

  /** `execute_mutator_commands` as a state transformer. */
  function MutatorStep(s: AgentState, co: Collaborators): Result<AgentState, Failure> {
    if s.goalReports == [] then Err(IndexError)
    else
      var n := |s.goalReports|;
      Ok(s.(goalReports := s.goalReports[..n - 1] + [MutatedReport(s.goalReports[n - 1], co)]))
  }

  /**
    The repair step keeps every report but the last, and keeps the last
    one's goal and command reports; its repair reports grow by one local
    batch per failing command report, in order. An empty report list is an
    index error.
   */
  lemma MutatorStepShape(s: AgentState, co: Collaborators)
    ensures MutatorStep(s, co).Ok? <==> s.goalReports != []
    ensures MutatorStep(s, co).Ok? ==>
      var r, n := MutatorStep(s, co).value, |s.goalReports|;
      var last := s.goalReports[n - 1];
      && r.goals == s.goals && r.messages == s.messages
      && |r.goalReports| == n
      && r.goalReports[..n - 1] == s.goalReports[..n - 1]
      && r.goalReports[n - 1].goalName == last.goalName
      && r.goalReports[n - 1].goalDescription == last.goalDescription
      && r.goalReports[n - 1].commandReports == last.commandReports
      && r.goalReports[n - 1].modifyCommandReports
           == last.modifyCommandReports + Flatten(FixBatches(Failing(last.commandReports), co))
  {
    if s.goalReports != [] {
      var n := |s.goalReports|;
      FixReportsFollowFailing(s.goalReports[n - 1].commandReports, co);
      assert (s.goalReports[..n - 1] + [MutatedReport(s.goalReports[n - 1], co)])[..n - 1] == s.goalReports[..n - 1];
    }
  }

  /** One turn of the repair loop: a success adds nothing; a failure adds its repair batch and is recorded. */
  lemma RepairTurn(reports: seq<CommandReport>, co: Collaborators, i: nat, initial: seq<CommandReport>,
                   gathered: seq<CommandReport>, requested: seq<CommandReport>, batch: seq<CommandReport>)
    requires i < |reports|
    requires gathered == initial + FixReports(reports[..i], co) && requested == Failing(reports[..i])
    requires !IsSuccess(reports[i]) ==> batch == co.runLocal(co.fetchFix(reports[i]))
    ensures IsSuccess(reports[i]) ==>
      gathered == initial + FixReports(reports[..i + 1], co) && requested == Failing(reports[..i + 1])
    ensures !IsSuccess(reports[i]) ==>
      gathered + batch == initial + FixReports(reports[..i + 1], co) && requested + [reports[i]] == Failing(reports[..i + 1])
  {
    assert reports[..i + 1][..i] == reports[..i];
    assert reports[..i + 1][i] == reports[i];
    if IsSuccess(reports[i]) {
      assert FixReports(reports[..i + 1], co) == FixReports(reports[..i], co) + [];
      assert Failing(reports[..i + 1]) == Failing(reports[..i]) + [];
    } else {
      Seqs.AppendAssoc(initial, FixReports(reports[..i], co), batch);
    }
  }

  /** A batch run by the modelled local executor is what `runLocal` reports. */
  lemma ModelledLocalRun(co: Collaborators, commands: seq<string>, report: seq<CommandReport>,
                         sent: seq<string>, rest: seq<CommandExecutor.ReadEvent>)
    requires ExecutorsModelled(co)
    requires CommandExecutor.RunLocalBatch(co.localShell(commands), commands, co.ids, co.quote, co.agent)
          == CommandExecutor.Batch(report, sent, rest)
    ensures report == co.runLocal(commands)
  {
    assert report == LocalReports(co, commands);
  }

  /**
    `execute_mutator_commands`: for each command report of the last goal
    report whose success is falsy, ask for repair commands, run them in a
    local shell and add the reports to the goal's repair reports. Also
    returns the reports for which repairs were requested, in order.
   */
  method ExecuteMutatorCommands(s: AgentState, co: Collaborators)
    returns (r: Result<AgentState, Failure>, ghost requested: seq<CommandReport>)
    requires ExecutorsModelled(co)
    ensures r == MutatorStep(s, co)
    ensures requested == if s.goalReports == [] then [] else Failing(s.goalReports[|s.goalReports| - 1].commandReports)
  {
    if |s.goalReports| == 0 {
      return Err(IndexError), [];
    }
    var currentGoal := s.goalReports[|s.goalReports| - 1];
    var modifyReports := currentGoal.modifyCommandReports;
    requested := [];
    var commandReports := currentGoal.commandReports;
    for i := 0 to |commandReports|
      invariant modifyReports == currentGoal.modifyCommandReports + FixReports(commandReports[..i], co)
      invariant requested == Failing(commandReports[..i])
    {
      var commandReport := commandReports[i];
      if !IsSuccess(commandReport) {
        var modifyCommands := co.fetchFix(commandReport);
        var modifyReport, shell := CommandExecutor.LocalExecuteCommandsSync(
          co.agent, co.localShell(modifyCommands), modifyCommands, co.ids, co.quote);
        ModelledLocalRun(co, modifyCommands, modifyReport, shell.sent, shell.events);
        RepairTurn(commandReports, co, i, currentGoal.modifyCommandReports, modifyReports, requested, modifyReport);
        modifyReports := modifyReports + modifyReport;
        requested := requested + [commandReport];
      } else {
        RepairTurn(commandReports, co, i, currentGoal.modifyCommandReports, modifyReports, requested, []);
      }
    }
    assert commandReports[..|commandReports|] == commandReports;
    var updatedGoalReports := s.goalReports[..|s.goalReports| - 1];
    r := Ok(s.(goalReports := updatedGoalReports + [currentGoal.(modifyCommandReports := modifyReports)]));
  }

  // ---------------------------------------------------------------------------
  // The graph
  // ---------------------------------------------------------------------------

  /** The nodes of the graph, and its end. */
  datatype Node = IdentifyGoalsNode | IdentifyCommandsNode | ExecuteCommandsNode | ExecuteMutatorCommandsNode | End

  /** `process_more_goals`: the repair step loops back while goals remain. */
  predicate ProcessMoreGoals(s: AgentState) {
    |s.goals| > 0
  }

  /** The edges: a fixed chain, and one conditional edge out of the repair step. */
  function Successor(node: Node, s: AgentState): Node {
    match node
    case IdentifyGoalsNode => IdentifyCommandsNode
    case IdentifyCommandsNode => ExecuteCommandsNode
    case ExecuteCommandsNode => ExecuteMutatorCommandsNode
    case ExecuteMutatorCommandsNode => if ProcessMoreGoals(s) then IdentifyCommandsNode else End
    case End => End
  }

  /** The repair step goes back to identifying commands exactly when goals remain, and otherwise ends. */
  lemma RoutingAfterRepair(s: AgentState)
    ensures Successor(ExecuteMutatorCommandsNode, s) == IdentifyCommandsNode <==> s.goals != []
    ensures Successor(ExecuteMutatorCommandsNode, s) == End <==> s.goals == []
  {
  }

  /** One node's state transformer. */
  function RunNode(node: Node, s: AgentState, co: Collaborators): (r: Result<AgentState, Failure>)
    ensures r.Ok? && node.IdentifyCommandsNode? ==> |s.goals| > 0 && |r.value.goals| == |s.goals| - 1
    ensures r.Ok? && (node.ExecuteCommandsNode? || node.ExecuteMutatorCommandsNode?) ==> r.value.goals == s.goals
  {
    match node
    case IdentifyGoalsNode => IdentifyGoals(s, co)
    case IdentifyCommandsNode => IdentifyCommands(s, co)
    case ExecuteCommandsNode => ExecuteCommands(s, co)
    case ExecuteMutatorCommandsNode => MutatorStep(s, co)
    case End => Ok(s)
  }

  /** How far a node is from the end, for a given number of goals left. */
  function Rank(node: Node, goals: nat): nat {
    match node
    case IdentifyCommandsNode => 3 * goals
    case ExecuteCommandsNode => 3 * goals + 2
    case ExecuteMutatorCommandsNode => 3 * goals + 1
    case _ => 0
    }

  /**
    Running the graph from `node`: apply the node, follow its edge, stop at
    the end or at the first failure. Every cycle removes one goal, which is
    why this ends.
   */
  function Run(node: Node, s: AgentState, co: Collaborators): Result<AgentState, Failure>
    decreases (if node.IdentifyGoalsNode? then 1 else 0), Rank(node, |s.goals|)
  {
    if node.End? then Ok(s)
    else
      match RunNode(node, s, co)
      case Err(e) => Err(e)
      case Ok(next) => Run(Successor(node, next), next, co)
  }

  /** `invoke`: run the graph from its entry point on the empty state. */
  function Invoke(co: Collaborators): Result<AgentState, Failure> {
    Run(IdentifyGoalsNode, Initial, co)
  }

  // ---------------------------------------------------------------------------
  // What a whole run does
  // ---------------------------------------------------------------------------

  /** The final report of one goal: identified, executed, repaired. */
  function ProcessedGoal(g: Goal, co: Collaborators): GoalReport
    requires HasKeys(g)
  {
    MutatedReport(ExecutedReport(IdentifiedReport(g, co), co), co)
  }

  /** `ProcessedGoal` as a function value, so that lists of final reports can be stated without unfolding it. */
  function Cycle(co: Collaborators): Goal --> GoalReport {
    g requires HasKeys(g) => ProcessedGoal(g, co)
  }

  /** The final reports of a list of goals, one per goal, in order. */
  function ProcessedAll(goals: seq<Goal>, process: Goal --> GoalReport): (reports: seq<GoalReport>)
    requires forall k :: 0 <= k < |goals| ==> process.requires(goals[k])
    ensures |reports| == |goals|
  {
    if goals == [] then [] else [process(goals[0])] + ProcessedAll(goals[1..], process)
  }

  /** Final report `k` belongs to goal `k`. */
  lemma {:induction false} ProcessedAllInOrder(goals: seq<Goal>, process: Goal --> GoalReport, k: nat)
    requires forall j :: 0 <= j < |goals| ==> process.requires(goals[j])
    requires k < |goals|
    ensures ProcessedAll(goals, process)[k] == process(goals[k])
  {
    if k > 0 {
      ProcessedAllInOrder(goals[1..], process, k - 1);
    }
  }

  /** Processing one more goal appends its final report. */
  lemma {:induction false} ProcessedAllSnoc(goals: seq<Goal>, g: Goal, process: Goal --> GoalReport)
    requires forall j :: 0 <= j < |goals| ==> process.requires(goals[j])
    requires process.requires(g)
    ensures ProcessedAll(goals + [g], process) == ProcessedAll(goals, process) + [process(g)]
  {
    if goals == [] {
      assert goals + [g] == [g];
    } else {
      assert (goals + [g])[0] == goals[0];
      assert (goals + [g])[1..] == goals[1..] + [g];
      ProcessedAllSnoc(goals[1..], g, process);
      Seqs.AppendAssoc([process(goals[0])], ProcessedAll(goals[1..], process), [process(g)]);
    }
  }

  /**
    One identify-commands, execute-commands, repair cycle consumes exactly
    the first goal and appends exactly its final report.
   */
  lemma CycleConsumesOneGoal(s: AgentState, co: Collaborators)
    requires s.goals != [] && HasKeys(s.goals[0])
    ensures var s1 := IdentifyCommands(s, co).value;
      && ExecuteCommands(s1, co).Ok?
      && var s2 := ExecuteCommands(s1, co).value;
      && MutatorStep(s2, co)
           == Ok(AgentState(CommandsConversation(s.goals[0], co), s.goals[1..], s.goalReports + [ProcessedGoal(s.goals[0], co)]))
  {
    var g := s.goals[0];
    var s1 := IdentifyCommands(s, co).value;
    assert s1.goalReports == s.goalReports + [IdentifiedReport(g, co)];
    var n := |s1.goalReports|;
    assert s1.goalReports[..n - 1] == s.goalReports;
    var s2 := ExecuteCommands(s1, co).value;
    assert s2.goalReports == s.goalReports + [ExecutedReport(IdentifiedReport(g, co), co)];
    assert s2.goalReports[..n - 1] == s.goalReports;
  }

  /**
    From identifying commands, the loop runs one cycle per goal and, when
    every goal has both keys, ends with no goals left and one final report
    per goal appended in order. With no goals left it fails with an index
    error, and a goal without a key makes it fail with a key error.
   */
  lemma {:induction false} RunFromIdentifyCommands(s: AgentState, co: Collaborators)
    ensures s.goals == [] ==> Run(IdentifyCommandsNode, s, co) == Err(IndexError)
    ensures !AllHaveKeys(s.goals) ==> Run(IdentifyCommandsNode, s, co) == Err(KeyError)
    ensures s.goals != [] && AllHaveKeys(s.goals) ==>
      Run(IdentifyCommandsNode, s, co)
        == Ok(AgentState(CommandsConversation(s.goals[|s.goals| - 1], co), [], s.goalReports + ProcessedAll(s.goals, Cycle(co))))
    decreases |s.goals|
  {
    if s.goals != [] {
      if !HasKeys(s.goals[0]) {
        assert Run(IdentifyCommandsNode, s, co) == Err(KeyError);
      } else {
        var s3 := RunCycle(s, co);
        assert Cycle(co)(s.goals[0]) == ProcessedGoal(s.goals[0], co);
        assert AllHaveKeys(s.goals) <==> AllHaveKeys(s.goals[1..]) by {
          forall k | 0 <= k < |s.goals[1..]| ensures s.goals[1..][k] == s.goals[k + 1] { }
          if AllHaveKeys(s.goals[1..]) {
            forall k | 0 < k < |s.goals| ensures HasKeys(s.goals[k]) {
              assert s.goals[k] == s.goals[1..][k - 1];
            }
          }
        }
        if AllHaveKeys(s.goals) {
          ReportsAfterCycle(s.goalReports, s.goals, Cycle(co));
        }
        if s.goals[1..] != [] {
          RunFromIdentifyCommands(s3, co);
          assert s.goals[1..][|s.goals[1..]| - 1] == s.goals[|s.goals| - 1];
        }
      }
    }
  }

  /** The state once the first `k` goals have been identified, executed and repaired. */
  function AfterGoals(s: AgentState, co: Collaborators, k: nat): AgentState
    requires 0 < k <= |s.goals| && forall j :: 0 <= j < k ==> HasKeys(s.goals[j])
  {
    AgentState(CommandsConversation(s.goals[k - 1], co), s.goals[k..], s.goalReports + ProcessedAll(s.goals[..k], Cycle(co)))
  }

  /**
    When the first `k` goals have both keys and more goals remain, the run
    from identifying commands passes through the state in which those `k`
    goals have been fully executed and repaired. So a later goal without a
    key fails the run only after the earlier goals' commands have run.
   */
  lemma {:induction false} RunPassesThroughGoals(s: AgentState, co: Collaborators, k: nat)
    requires 0 < k < |s.goals| && forall j :: 0 <= j < k ==> HasKeys(s.goals[j])
    ensures Run(IdentifyCommandsNode, s, co) == Run(IdentifyCommandsNode, AfterGoals(s, co, k), co)
    ensures !HasKeys(s.goals[k]) ==> IdentifyCommands(AfterGoals(s, co, k), co) == Err(KeyError)
  {
    var before := if k == 1 then s else AfterGoals(s, co, k - 1);
    if k > 1 {
      RunPassesThroughGoals(s, co, k - 1);
    }
    assert before.goals == s.goals[k - 1..];
    assert before.goalReports == s.goalReports + ProcessedAll(s.goals[..k - 1], Cycle(co)) by {
      if k == 1 {
        assert s.goals[..0] == [];
        assert s.goalReports + [] == s.goalReports;
      }
    }
    var s3 := RunCycle(before, co);
    assert before.goals[1..] == s.goals[k..];
    assert s.goals[..k] == s.goals[..k - 1] + [s.goals[k - 1]];
    ProcessedAllSnoc(s.goals[..k - 1], s.goals[k - 1], Cycle(co));
    Seqs.AppendAssoc(s.goalReports, ProcessedAll(s.goals[..k - 1], Cycle(co)), [ProcessedGoal(s.goals[k - 1], co)]);
    assert s3 == AfterGoals(s, co, k);
  }

  /** The reports after one cycle, followed by those of the remaining goals. */
  lemma ReportsAfterCycle(before: seq<GoalReport>, goals: seq<Goal>, process: Goal --> GoalReport)
    requires goals != [] && forall j :: 0 <= j < |goals| ==> process.requires(goals[j])
    ensures goals[1..] == [] ==> before + [process(goals[0])] == before + ProcessedAll(goals, process)
    ensures (before + [process(goals[0])]) + ProcessedAll(goals[1..], process) == before + ProcessedAll(goals, process)
  {
    Seqs.AppendAssoc(before, [process(goals[0])], ProcessedAll(goals[1..], process));
  }

  /** Running from identifying commands, with a first goal that has both keys, is one cycle and then the conditional edge. */
  lemma RunCycle(s: AgentState, co: Collaborators) returns (s3: AgentState)
    requires s.goals != [] && HasKeys(s.goals[0])
    ensures s3 == AgentState(CommandsConversation(s.goals[0], co), s.goals[1..], s.goalReports + [ProcessedGoal(s.goals[0], co)])
    ensures Run(IdentifyCommandsNode, s, co) == Run(Successor(ExecuteMutatorCommandsNode, s3), s3, co)
  {
    CycleConsumesOneGoal(s, co);
    var s1 := IdentifyCommands(s, co).value;
    var s2 := ExecuteCommands(s1, co).value;
    s3 := MutatorStep(s2, co).value;
    assert Run(IdentifyCommandsNode, s, co) == Run(ExecuteCommandsNode, s1, co);
    assert Run(ExecuteCommandsNode, s1, co) == Run(ExecuteMutatorCommandsNode, s2, co);
  }

  /**
    A whole run succeeds exactly when the goals reply decodes to a
    non-empty list of goals that all have both keys; it then leaves no goals
    and exactly one final report per goal, in the order the goals were
    given. A decoded goal without a key makes it fail with a key error.
   */
  lemma InvokeOutcome(co: Collaborators)
    ensures var parsed := co.parseGoals(co.model(GoalsConversation(Initial, co)));
      Invoke(co).Ok? <==> parsed.Some? && parsed.value != [] && AllHaveKeys(parsed.value)
    ensures var parsed := co.parseGoals(co.model(GoalsConversation(Initial, co)));
      parsed.Some? && !AllHaveKeys(parsed.value) ==> Invoke(co) == Err(KeyError)
    ensures var parsed := co.parseGoals(co.model(GoalsConversation(Initial, co)));
      Invoke(co).Ok? ==>
        && Invoke(co).value.goals == []
        && Invoke(co).value.goalReports == ProcessedAll(parsed.value, Cycle(co))
        && |Invoke(co).value.goalReports| == |parsed.value|
  {
    var r := IdentifyGoals(Initial, co);
    assert Invoke(co) == (if r.Ok? then Run(IdentifyCommandsNode, r.value, co) else Err(r.error));
    if r.Ok? {
      RunFromIdentifyCommands(r.value, co);
      if r.value.goals != [] && AllHaveKeys(r.value.goals) {
        assert [] + ProcessedAll(r.value.goals, Cycle(co)) == ProcessedAll(r.value.goals, Cycle(co));
      }
    }
  }
}
