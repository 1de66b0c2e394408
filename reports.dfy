/**
  The report records passed between the pipeline stages. They are plain
  dataclasses in the program and are modelled as immutable values.
 */
module Reports {
  import opened Wrappers

  /**
    The verdict on one command. `success` and `insights` stay `None` until the
    output has been judged.
   */
  datatype CommandReport = CommandReport(command: string, success: Option<bool>, insights: Option<string>)

  /**
    What happened to one goal: the reports of its commands and, separately,
    the reports of the repair commands run for the failing ones.
   */
  datatype GoalReport = GoalReport(
    goalName: string,
    goalDescription: string,
    commandReports: seq<CommandReport>,
    modifyCommandReports: seq<CommandReport>)

  /** Python's truth value of `report.success`: only an explicit `True` counts as success. */
  predicate IsSuccess(report: CommandReport) {
    report.success == Some(true)
  }

  /** A not-yet-run report for each command, as built when commands are identified. */
  function PendingReports(commands: seq<string>): (reports: seq<CommandReport>)
    ensures |reports| == |commands|
    ensures forall k :: 0 <= k < |commands| ==> reports[k] == CommandReport(commands[k], None, None)
  {
    seq(|commands|, k requires 0 <= k < |commands| => CommandReport(commands[k], None, None))
  }

  /** `[report.command for report in reports]`. */
  function CommandsOf(reports: seq<CommandReport>): (commands: seq<string>)
    ensures |commands| == |reports|
    ensures forall k :: 0 <= k < |reports| ==> commands[k] == reports[k].command
  {
    seq(|reports|, k requires 0 <= k < |reports| => reports[k].command)
  }

  /** Reading the commands back out of pending reports gives the commands. */
  lemma CommandsOfPending(commands: seq<string>)
    ensures CommandsOf(PendingReports(commands)) == commands
  {
  }
}
