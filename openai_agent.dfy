/**
  The parts of the assistant wrapper that decide things on their own: the
  status check after a run, the three-question cascade that decides whether
  a command is waiting for input, and the comma-separated command parse.
  The assistant service itself is outside the model: each run's final
  status and last message are inputs.
 */
module OpenAI {
  import opened Wrappers
  import Text

  /** The sentinel answer meaning "no input is needed". */
  const Noop: string := "breba-noop"

  /** The only answer to a yes/no question that counts as yes. */
  const Yes: string := "Yes"

  /** The status a finished run reports. */
  const Completed: string := "completed"

  /** How a remote run ended: its status and the newest message on its thread. */
  datatype RunOutcome = RunOutcome(status: string, lastMessage: string)

  /** The question sent in a run, standing for the prompt and instruction constants it uses. */
  datatype Prompt =
    | HasPromptQuestion(output: string)    // the first question, followed by the command output
    | VerifyPromptQuestion                 // "is the prompt the last sentence?"
    | AnswerPromptQuestion                 // "what should be typed?"
    | OtherPrompt(message: string, instructions: string)

  /** A message posted to a thread before a run. */
  datatype Posted = Posted(thread: nat, prompt: Prompt)

  /** What `do_run` returns: the reply when the run completed, `None` for any other status. */
  function Reply(run: RunOutcome): (reply: Option<string>)
    ensures reply.Some? <==> run.status == Completed
    ensures reply.Some? ==> reply.value == run.lastMessage
  {
    if run.status == Completed then Some(run.lastMessage) else None
  }

  /**
    The decision of `provide_input` from the replies to its three questions:
    the third reply is passed on only when the first two are exactly "Yes".
   */
  function Cascade(hasPrompt: Option<string>, verified: Option<string>, answer: Option<string>): (decision: Option<string>)
  {
    if hasPrompt == Some(Yes) then
      if verified == Some(Yes) then answer else Some(Noop)
    else Some(Noop)
  }

  /** How many runs `provide_input` starts for the given first two replies. */
  function CallsMade(hasPrompt: Option<string>, verified: Option<string>): nat
  {
    if hasPrompt == Some(Yes) then (if verified == Some(Yes) then 3 else 2) else 1
  }

  /** The cascade answers "no input" unless both checks said exactly "Yes", and then passes the answer on verbatim. */
  lemma CascadeDecides(hasPrompt: Option<string>, verified: Option<string>, answer: Option<string>)
    ensures hasPrompt == Some(Yes) && verified == Some(Yes) ==> Cascade(hasPrompt, verified, answer) == answer
    ensures !(hasPrompt == Some(Yes) && verified == Some(Yes)) ==> Cascade(hasPrompt, verified, answer) == Some(Noop)
    ensures Cascade(hasPrompt, verified, answer) != Some(Noop) ==> hasPrompt == Some(Yes) && verified == Some(Yes)
  {
  }

  /** One, two or three runs: a second one only after a "Yes", a third only after two. */
  lemma CallsMadeBounds(hasPrompt: Option<string>, verified: Option<string>)
    ensures 1 <= CallsMade(hasPrompt, verified) <= 3
    ensures CallsMade(hasPrompt, verified) >= 2 <==> hasPrompt == Some(Yes)
    ensures CallsMade(hasPrompt, verified) == 3 <==> hasPrompt == Some(Yes) && verified == Some(Yes)
  {
  }

  /** Why `fetch_commands` can fail: the run did not complete, so there is no text to split. */
  datatype FetchError = NoReply

  /** `fetch_commands` after its run: split the reply on commas and strip each piece. */
  function FetchCommands(reply: Option<string>): (commands: Result<seq<string>, FetchError>)
    ensures commands.Ok? <==> reply.Some?
    ensures commands.Ok? ==> |commands.value| == Text.Count(reply.value, ',') + 1
    ensures commands.Ok? ==> forall k :: 0 <= k < |commands.value| ==> Text.Trimmed(commands.value[k])
  {
    match reply
    case None => Err(NoReply)
    case Some(text) =>
      Text.SplitStripShape(text);
      Ok(Text.SplitStrip(text))
  }

  /** An empty reply is not an empty list: it parses as one empty command. */
  lemma FetchCommandsEmptyReply()
    ensures FetchCommands(Some("")) == Ok([""])
  {
    Text.SplitStripEmpty();
  }

  /**
    The assistant client's conversational state: the current thread, how many
    threads it has opened (the next thread's id), and every message it posted.
   */
  class OpenAIAgent {
    var thread: Option<nat>
    var threadsCreated: nat
    var posted: seq<Posted>

    constructor ()
      ensures thread == None && threadsCreated == 0 && posted == []
    {
      thread := None;
      threadsCreated := 0;
      posted := [];
    }

    /**
      `do_run`: optionally open a new thread, post the prompt on the current
      thread, and yield the reply only if the run completed. Without a new
      thread there must already be one (otherwise the program fails on
      `self.thread.id`).
     */
    method DoRun(prompt: Prompt, newThread: bool, run: RunOutcome) returns (reply: Option<string>)
      requires newThread || thread.Some?
      modifies this
      ensures reply == Reply(run)
      ensures newThread ==> thread == Some(old(threadsCreated)) && threadsCreated == old(threadsCreated) + 1
      ensures !newThread ==> thread == old(thread) && threadsCreated == old(threadsCreated)
      ensures thread.Some? && posted == old(posted) + [Posted(thread.value, prompt)]
    {
      if newThread {
        thread := Some(threadsCreated);
        threadsCreated := threadsCreated + 1;
      }
      posted := posted + [Posted(thread.value, prompt)];
      if run.status == Completed {
        reply := Some(run.lastMessage);
      } else {
        reply := None;
      }
    }

    /**
      `provide_input`: ask whether the output ends in a prompt, then confirm,
      then ask for the answer, stopping at the first reply that is not "Yes".
      `runs(k)` is how the k-th run of this call ends. Only the first run
      opens a thread; the follow-ups stay on it.
     */
    method ProvideInput(output: string, runs: nat -> RunOutcome) returns (decision: Option<string>)
      modifies this
      ensures decision == Cascade(Reply(runs(0)), Reply(runs(1)), Reply(runs(2)))
      ensures thread == Some(old(threadsCreated)) && threadsCreated == old(threadsCreated) + 1
      ensures |posted| == |old(posted)| + CallsMade(Reply(runs(0)), Reply(runs(1)))
      ensures posted[..|old(posted)|] == old(posted)
      ensures posted[|old(posted)|] == Posted(old(threadsCreated), HasPromptQuestion(output))
      ensures |posted| >= |old(posted)| + 2 ==> posted[|old(posted)| + 1].prompt == VerifyPromptQuestion
      ensures |posted| >= |old(posted)| + 3 ==> posted[|old(posted)| + 2].prompt == AnswerPromptQuestion
      ensures forall k :: |old(posted)| <= k < |posted| ==> posted[k].thread == old(threadsCreated)
    {
      var hasPrompt := DoRun(HasPromptQuestion(output), true, runs(0));
      if hasPrompt == Some(Yes) {
        var verified := DoRun(VerifyPromptQuestion, false, runs(1));
        if verified == Some(Yes) {
          decision := DoRun(AnswerPromptQuestion, false, runs(2));
          return;
        }
      }
      decision := Some(Noop);
    }
  }
}
