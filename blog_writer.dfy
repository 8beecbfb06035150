/** The writer/editor loop (`service/BlogWriterService.java`): one call for
    an initial draft, then at most MAX_ITERATIONS rounds of "evaluate the
    draft; unless the evaluation approves it, refine it with the editor's
    feedback". A failing model call is an exception that ends the run. */
module BlogWriter {
  import opened Outcomes
  import opened Text
  import opened Clients

  const MAX_ITERATIONS: nat := 3

  const PASS := "PASS"
  const NEEDS_IMPROVEMENT := "NEEDS_IMPROVEMENT"

  /** The writer's first prompt, with the topic in quotes. */
  function InitialPrompt(pr: Protocol, topic: string): string
  {
    pr.initialHead + topic + pr.initialTail
  }

  /** The editor's prompt around the current draft. */
  function EvaluationPrompt(pr: Protocol, draft: string): string
  {
    pr.evaluationHead + draft + pr.evaluationTail
  }

  /** The writer's revision prompt: the feedback, then the current draft. */
  function RefinementPrompt(pr: Protocol, feedback: string, draft: string): string
  {
    pr.refinementHead + feedback + pr.refinementMiddle + draft + pr.refinementTail
  }

  /** The approval test `evaluation.toUpperCase().contains("PASS")`: the
      evaluation approves exactly when `PASS` occurs anywhere in it, in any
      letter case — whatever else it says. */
  function Approves(evaluation: string): (approved: bool)
    ensures approved <==> exists i :: OccursAt(ToUpper(evaluation), PASS, i)
  {
    Contains(ToUpper(evaluation), PASS)
  }

  /** `extractFeedback`: null gives `""`; otherwise the text after the first
      `NEEDS_IMPROVEMENT` (in any letter case), trimmed; without the marker,
      the evaluation unchanged. */
  function ExtractFeedback(evaluation: Option<string>): (feedback: string)
    ensures evaluation.None? ==> feedback == ""
    ensures evaluation.Some? && !Contains(ToUpper(evaluation.value), NEEDS_IMPROVEMENT) ==>
      feedback == evaluation.value
    ensures evaluation.Some? ==> forall i :: FirstOccursAt(ToUpper(evaluation.value), NEEDS_IMPROVEMENT, i) ==>
      feedback == Trim(evaluation.value[i + |NEEDS_IMPROVEMENT|..])
  {
    match evaluation
    case None => ""
    case Some(text) =>
      var idx := IndexOf(ToUpper(text), NEEDS_IMPROVEMENT);
      if idx != -1 then Trim(text[idx + |NEEDS_IMPROVEMENT|..]) else text
  }

  /** The feedback starts right after the marker: the colon an editor
      writes after `NEEDS_IMPROVEMENT` stays in it. */
  lemma FeedbackKeepsColon()
    ensures ExtractFeedback(Some("NEEDS_IMPROVEMENT: make it shorter")) == ": make it shorter"
  {
    var evaluation := "NEEDS_IMPROVEMENT: make it shorter";
    var upper := ToUpper(evaluation);
    assert upper[..|NEEDS_IMPROVEMENT|] == NEEDS_IMPROVEMENT;
    assert FirstOccursAt(upper, NEEDS_IMPROVEMENT, 0);
    assert evaluation[|NEEDS_IMPROVEMENT|..] == ": make it shorter";
  }

  /** The marker is found in any letter case, and the text after it is
      trimmed: an evaluation opening with the marker in lower case carries
      the rest of it as feedback, surrounding spaces removed. */
  lemma LowerCaseMarkerFeedback(rest: string)
    ensures ExtractFeedback(Some("needs_improvement" + rest)) == Trim(rest)
  {
    var evaluation := "needs_improvement" + rest;
    var upper := ToUpper(evaluation);
    forall i | 0 <= i < |NEEDS_IMPROVEMENT|
      ensures upper[i] == NEEDS_IMPROVEMENT[i]
    {
      assert upper[i] == UpperChar("needs_improvement"[i]);
    }
    assert FirstOccursAt(upper, NEEDS_IMPROVEMENT, 0);
    assert evaluation[|NEEDS_IMPROVEMENT|..] == rest;
  }

  /** Approval looks for `PASS` anywhere: an evaluation that asks for
      improvement but mentions a passage approves the draft. */
  lemma PassInsideAWordApproves()
    ensures Approves("NEEDS_IMPROVEMENT: the second passage drags")
  {
    var upper := ToUpper("NEEDS_IMPROVEMENT: the second passage drags");
    assert upper[30..34] == PASS;
    assert OccursAt(upper, PASS, 30);
  }

  /** How the service talks to the model: its three prompt templates, as
      the text around their `%s` holes, and how it reads an evaluation —
      whether it approves the draft, and the feedback it carries. The
      service holds these as data, so that reasoning about the loop never
      has to take the long texts or the text searches apart;
      `SOURCE_PROTOCOL` holds those of `generateBlogPost`. */
  datatype Protocol = Protocol(
    initialHead: string, initialTail: string,
    evaluationHead: string, evaluationTail: string,
    refinementHead: string, refinementMiddle: string, refinementTail: string,
    approves: string -> bool, feedback: string -> string)

  const SOURCE_PROTOCOL := Protocol(
    "You are a professional blog writer. Write a well-structured, engaging blog post about \"",
    "\".\nThe post should have a clear introduction, body paragraphs, and conclusion.\n" +
    "Include relevant examples and maintain a conversational yet professional tone.\n",
    "You are a critical blog editor. Evaluate the following blog draft and respond with either:\n" +
    "PASS - if the draft is well-written, engaging, and complete\n" +
    "NEEDS_IMPROVEMENT - followed by specific, actionable feedback on what to improve\n\n" +
    "Focus on:\n- Clarity and flow of ideas\n- Engagement and reader interest\n" +
    "- Professional yet conversational tone\n- Structure and organization\n\nDraft:\n",
    "\n",
    "You are a blog writer. Improve the following blog draft based on this editorial feedback:\n\nFeedback: ",
    "\n\nCurrent Draft:\n",
    "\n\nProvide the complete improved version while maintaining the original topic and structure.\n",
    Approves, e => ExtractFeedback(Some(e)))

  /** What a run leaves behind: its outcome (the returned draft, or the
      message of the exception that ended it) and the client's whole log of
      prompts afterwards. */
  datatype Run = Run(outcome: Result<string>, sent: seq<Prompt>)

  /** Model call number `i` was made and answered. */
  predicate Answered(replies: seq<Result<string>>, i: int) {
    0 <= i < |replies| && replies[i].Success?
  }

  /** A prompt of one user message and no system message. */
  function UserPrompt(text: string): Prompt {
    Prompt(None, text)
  }

  /** What one pass of the loop body does: its outcome (the draft it leaves
      current, or the failure that ends the run), whether the editor
      approved, and the prompts it sent. */
  datatype Step = Step(outcome: Result<string>, approved: bool, prompts: seq<Prompt>)

  /** One pass of the loop body, with `pos` the number of its first model
      call: evaluate the draft; on approval keep it, otherwise send the
      revision prompt and take the reply as the new draft. */
  function Round(pr: Protocol, draft: string, replies: seq<Result<string>>, pos: nat): (step: Step)
    ensures 1 <= |step.prompts| <= 2 && step.prompts[0] == UserPrompt(EvaluationPrompt(pr, draft))
    ensures step.outcome.Failure? ==> step.outcome == ReplyAt(replies, pos + |step.prompts| - 1)
    ensures step.approved <==> |step.prompts| == 1 && step.outcome.Success?
    ensures step.approved ==>
      step.outcome == Success(draft) && pos < |replies| && replies[pos].Success? && pr.approves(replies[pos].value)
    ensures |step.prompts| == 2 ==>
      pos < |replies| && replies[pos].Success? && !pr.approves(replies[pos].value) &&
      step.prompts[1] == UserPrompt(RefinementPrompt(pr, pr.feedback(replies[pos].value), draft)) &&
      step.outcome == ReplyAt(replies, pos + 1)
  {
    var evaluate := UserPrompt(EvaluationPrompt(pr, draft));
    match ReplyAt(replies, pos)
    case Failure(m) => Step(Failure(m), false, [evaluate])
    case Success(evaluation) =>
      if pr.approves(evaluation) then Step(Success(draft), true, [evaluate])
      else
        var refine := UserPrompt(RefinementPrompt(pr, pr.feedback(evaluation), draft));
        Step(ReplyAt(replies, pos + 1), false, [evaluate, refine])
  }

  /** The `while (!approved && iteration <= MAX_ITERATIONS)` loop, entered
      with `sent` already logged: a failing round ends the run, otherwise
      the loop goes on with the round's draft and verdict. */
  function Loop(pr: Protocol, draft: string, approved: bool, iteration: nat,
                replies: seq<Result<string>>, sent: seq<Prompt>): Run
    requires 1 <= iteration <= MAX_ITERATIONS + 1
    decreases MAX_ITERATIONS + 1 - iteration
  {
    if approved || iteration > MAX_ITERATIONS then Run(Success(draft), sent)
    else
      var step := Round(pr, draft, replies, |sent|);
      if step.outcome.Failure? then Run(step.outcome, sent + step.prompts)
      else Loop(pr, step.outcome.value, step.approved, iteration + 1, replies, sent + step.prompts)
  }

  /** A failing round ends the loop with its failure. */
  lemma LoopFails(pr: Protocol, draft: string, iteration: nat, replies: seq<Result<string>>, sent: seq<Prompt>)
    requires 1 <= iteration <= MAX_ITERATIONS
    requires Round(pr, draft, replies, |sent|).outcome.Failure?
    ensures var step := Round(pr, draft, replies, |sent|);
      Loop(pr, draft, false, iteration, replies, sent) == Run(step.outcome, sent + step.prompts)
  {
  }

  /** Any other round hands the loop over to the next iteration. */
  lemma LoopGoesOn(pr: Protocol, draft: string, iteration: nat, replies: seq<Result<string>>, sent: seq<Prompt>)
    requires 1 <= iteration <= MAX_ITERATIONS
    requires Round(pr, draft, replies, |sent|).outcome.Success?
    ensures var step := Round(pr, draft, replies, |sent|);
      Loop(pr, draft, false, iteration, replies, sent) ==
      Loop(pr, step.outcome.value, step.approved, iteration + 1, replies, sent + step.prompts)
  {
  }

  /** The loop keeps what was logged before it, makes at least one call
      when it runs a round, and at most two per remaining round. */
  lemma {:induction false} LoopLog(pr: Protocol, d: string, approved: bool, iteration: nat,
                                   replies: seq<Result<string>>, sent: seq<Prompt>)
    requires 1 <= iteration <= MAX_ITERATIONS + 1
    ensures var run := Loop(pr, d, approved, iteration, replies, sent);
      |sent| <= |run.sent| <= |sent| + 2 * (MAX_ITERATIONS + 1 - iteration) &&
      run.sent[..|sent|] == sent &&
      (!approved && iteration <= MAX_ITERATIONS ==> |sent| < |run.sent|)
    decreases MAX_ITERATIONS + 1 - iteration
  {
    if !approved && iteration <= MAX_ITERATIONS {
      var step := Round(pr, d, replies, |sent|);
      if step.outcome.Success? {
        var next := sent + step.prompts;
        LoopLog(pr, step.outcome.value, step.approved, iteration + 1, replies, next);
        var run := Loop(pr, d, approved, iteration, replies, sent);
        assert run.sent[..|sent|] == run.sent[..|next|][..|sent|];
      }
    }
  }

  /** Every call of the loop but its last was answered; a run that ends in a
      failure ends with the failure of its last call; and every evaluation
      but possibly the last one was answered without approval. */
  lemma {:induction false} LoopCalls(pr: Protocol, d: string, approved: bool, iteration: nat,
                                     replies: seq<Result<string>>, sent: seq<Prompt>)
    requires 1 <= iteration <= MAX_ITERATIONS + 1
    ensures var run := Loop(pr, d, approved, iteration, replies, sent);
      forall i :: |sent| <= i < |run.sent| - 1 ==>
        Answered(replies, i) && ((i - |sent|) % 2 == 0 ==> !pr.approves(replies[i].value))
    ensures var run := Loop(pr, d, approved, iteration, replies, sent);
      run.outcome.Failure? ==> |sent| < |run.sent| && run.outcome == ReplyAt(replies, |run.sent| - 1)
    decreases MAX_ITERATIONS + 1 - iteration
  {
    if !approved && iteration <= MAX_ITERATIONS {
      var step := Round(pr, d, replies, |sent|);
      if step.outcome.Success? {
        var next := sent + step.prompts;
        LoopCalls(pr, step.outcome.value, step.approved, iteration + 1, replies, next);
        LoopLog(pr, step.outcome.value, step.approved, iteration + 1, replies, next);
      }
    }
  }

  /** How a loop that did not fail ends: with every call answered, and
      either on an approving evaluation, keeping the draft it evaluated, or
      after its last round (or at once), with the latest draft. */
  lemma {:induction false} LoopEnd(pr: Protocol, d: string, approved: bool, iteration: nat,
                                   replies: seq<Result<string>>, sent: seq<Prompt>)
    requires 1 <= iteration <= MAX_ITERATIONS + 1
    ensures var run := Loop(pr, d, approved, iteration, replies, sent);
      run.outcome.Success? ==> forall i :: |sent| <= i < |run.sent| ==> Answered(replies, i)
    ensures var run := Loop(pr, d, approved, iteration, replies, sent);
      var last := |run.sent| - 1;
      run.outcome.Success? && (|run.sent| - |sent|) % 2 == 1 ==>
        0 <= last < |replies| && replies[last].Success? && pr.approves(replies[last].value) &&
        run.outcome == (if last == |sent| then Success(d) else replies[last - 1])
    ensures var run := Loop(pr, d, approved, iteration, replies, sent);
      var last := |run.sent| - 1;
      run.outcome.Success? && (|run.sent| - |sent|) % 2 == 0 ==>
        (approved || |run.sent| - |sent| == 2 * (MAX_ITERATIONS + 1 - iteration)) &&
        (|run.sent| == |sent| ==> run.outcome == Success(d)) &&
        (|run.sent| > |sent| ==> 0 <= last < |replies| && run.outcome == replies[last])
    decreases MAX_ITERATIONS + 1 - iteration
  {
    if !approved && iteration <= MAX_ITERATIONS {
      var step := Round(pr, d, replies, |sent|);
      if step.outcome.Success? {
        var next := sent + step.prompts;
        LoopEnd(pr, step.outcome.value, step.approved, iteration + 1, replies, next);
        LoopLog(pr, step.outcome.value, step.approved, iteration + 1, replies, next);
      }
    }
  }

  /** The prompt of call `i` of a loop entered at call `start` with draft
      `d`, the calls before `i` having been answered: at even distance from
      `start` an evaluation of the current draft (`d`, or the reply to the
      refinement just before), at odd distance a refinement carrying the
      feedback of the evaluation just before. */
  function LoopPrompt(pr: Protocol, d: string, replies: seq<Result<string>>, start: nat, i: nat): Prompt
    requires start <= i
    requires forall j :: start <= j < i ==> Answered(replies, j)
  {
    assert i > start ==> Answered(replies, i - 1);
    assert i > start + 1 ==> Answered(replies, i - 2);
    if (i - start) % 2 == 0 then
      UserPrompt(EvaluationPrompt(pr, if i == start then d else replies[i - 1].value))
    else
      UserPrompt(RefinementPrompt(pr, pr.feedback(replies[i - 1].value), if i == start + 1 then d else replies[i - 2].value))
  }

  /** After a round that evaluated and refined, the prompts go on as those
      of a loop entered with the refined draft two calls later. */
  lemma LoopPromptShift(pr: Protocol, d: string, replies: seq<Result<string>>, start: nat, i: nat)
    requires start + 2 <= i
    requires forall j :: start <= j < i ==> Answered(replies, j)
    ensures Answered(replies, start + 1)
    ensures LoopPrompt(pr, d, replies, start, i) == LoopPrompt(pr, replies[start + 1].value, replies, start + 2, i)
  {
    assert Answered(replies, start + 1);
  }

  /** The loop's prompts alternate between evaluations and refinements as
      `LoopPrompt` says. */
  lemma {:induction false} LoopTranscript(pr: Protocol, d: string, approved: bool, iteration: nat,
                                          replies: seq<Result<string>>, sent: seq<Prompt>)
    requires 1 <= iteration <= MAX_ITERATIONS + 1
    ensures var run := Loop(pr, d, approved, iteration, replies, sent);
      forall i :: |sent| <= i < |run.sent| - 1 ==> Answered(replies, i)
    ensures var run := Loop(pr, d, approved, iteration, replies, sent);
      forall i :: |sent| <= i < |run.sent| ==> run.sent[i] == LoopPrompt(pr, d, replies, |sent|, i)
    decreases MAX_ITERATIONS + 1 - iteration
  {
    LoopCalls(pr, d, approved, iteration, replies, sent);
    var run := Loop(pr, d, approved, iteration, replies, sent);
    if !approved && iteration <= MAX_ITERATIONS {
      var step := Round(pr, d, replies, |sent|);
      var next := sent + step.prompts;
      if step.outcome.Success? {
        LoopTranscript(pr, step.outcome.value, step.approved, iteration + 1, replies, next);
        LoopLog(pr, step.outcome.value, step.approved, iteration + 1, replies, next);
        assert run == Loop(pr, step.outcome.value, step.approved, iteration + 1, replies, next);
        assert run.sent[..|next|] == next;
      } else {
        assert run.sent == next;
      }
      forall i | |sent| <= i < |run.sent|
        ensures run.sent[i] == LoopPrompt(pr, d, replies, |sent|, i)
      {
        if i < |next| {
          assert run.sent[i] == next[i] == step.prompts[i - |sent|];
        } else {
          LoopPromptShift(pr, d, replies, |sent|, i);
        }
      }
    }
  }

  /** `generateBlogPost(topic)` against a chat model whose call number i is
      answered by `replies[i]`, with `sent` the prompts it had received. */
  function BlogRun(pr: Protocol, topic: string, replies: seq<Result<string>>, sent: seq<Prompt>): Run {
    var logged := sent + [UserPrompt(InitialPrompt(pr, topic))];
    match ReplyAt(replies, |sent|)
    case Failure(m) => Run(Failure(m), logged)
    case Success(draft) => Loop(pr, draft, false, 1, replies, logged)
  }

  /** The calls of a run: the log found before it is kept, the writer's
      first prompt comes next, then at most two calls per round; every call
      but the last was answered, and a run that fails ends with the failure
      of its last call. A run that returns a draft made at least one
      evaluation. */
  lemma BlogRunCalls(pr: Protocol, topic: string, replies: seq<Result<string>>, sent: seq<Prompt>)
    ensures var run := BlogRun(pr, topic, replies, sent);
      |sent| + 1 <= |run.sent| <= |sent| + 1 + 2 * MAX_ITERATIONS &&
      run.sent[..|sent|] == sent && run.sent[|sent|] == UserPrompt(InitialPrompt(pr, topic))
    ensures var run := BlogRun(pr, topic, replies, sent);
      forall i :: |sent| <= i < |run.sent| - 1 ==> Answered(replies, i)
    ensures var run := BlogRun(pr, topic, replies, sent);
      run.outcome.Failure? ==> run.outcome == ReplyAt(replies, |run.sent| - 1)
    ensures var run := BlogRun(pr, topic, replies, sent);
      run.outcome.Success? ==> |sent| + 2 <= |run.sent|
  {
    var logged := sent + [UserPrompt(InitialPrompt(pr, topic))];
    var run := BlogRun(pr, topic, replies, sent);
    if ReplyAt(replies, |sent|).Success? {
      var d := replies[|sent|].value;
      LoopLog(pr, d, false, 1, replies, logged);
      LoopCalls(pr, d, false, 1, replies, logged);
      assert run.sent[..|sent|] == run.sent[..|logged|][..|sent|];
      assert run.sent[|sent|] == run.sent[..|logged|][|sent|];
    }
  }

  /** A run that returns a draft had every call answered, made at least
      one evaluation, and returns the reply to its last writer call. */
  lemma BlogRunResult(pr: Protocol, topic: string, replies: seq<Result<string>>, sent: seq<Prompt>)
    ensures var run := BlogRun(pr, topic, replies, sent);
      run.outcome.Success? ==> forall i :: |sent| <= i < |run.sent| ==> Answered(replies, i)
    ensures var run := BlogRun(pr, topic, replies, sent);
      var n := |run.sent| - |sent|;
      var writer := |sent| + 2 * ((n - 1) / 2);
      run.outcome.Success? ==> 2 <= n && Answered(replies, writer) && run.outcome == replies[writer]
  {
    var logged := sent + [UserPrompt(InitialPrompt(pr, topic))];
    if ReplyAt(replies, |sent|).Success? {
      var d := replies[|sent|].value;
      assert BlogRun(pr, topic, replies, sent) == Loop(pr, d, false, 1, replies, logged);
      LoopLog(pr, d, false, 1, replies, logged);
      LoopEnd(pr, d, false, 1, replies, logged);
    }
  }

  /** The loop goes on only without approval: every evaluation before the
      last one was answered and did not approve. */
  lemma BlogRunRejections(pr: Protocol, topic: string, replies: seq<Result<string>>, sent: seq<Prompt>)
    ensures var run := BlogRun(pr, topic, replies, sent);
      forall i :: |sent| < i < |run.sent| - 1 && (i - |sent|) % 2 == 1 ==>
        Answered(replies, i) && !pr.approves(replies[i].value)
  {
    var logged := sent + [UserPrompt(InitialPrompt(pr, topic))];
    if ReplyAt(replies, |sent|).Success? {
      var d := replies[|sent|].value;
      assert BlogRun(pr, topic, replies, sent) == Loop(pr, d, false, 1, replies, logged);
      LoopCalls(pr, d, false, 1, replies, logged);
    }
  }

  /** Why a run that returns a draft stopped: after an even number of calls
      on an approving evaluation, after an odd number because all
      MAX_ITERATIONS rounds were spent. */
  lemma BlogRunStops(pr: Protocol, topic: string, replies: seq<Result<string>>, sent: seq<Prompt>)
    ensures var run := BlogRun(pr, topic, replies, sent);
      run.outcome.Success? && (|run.sent| - |sent|) % 2 == 0 ==>
        Answered(replies, |run.sent| - 1) && pr.approves(replies[|run.sent| - 1].value)
    ensures var run := BlogRun(pr, topic, replies, sent);
      run.outcome.Success? && (|run.sent| - |sent|) % 2 == 1 ==> |run.sent| == |sent| + 1 + 2 * MAX_ITERATIONS
  {
    var logged := sent + [UserPrompt(InitialPrompt(pr, topic))];
    if ReplyAt(replies, |sent|).Success? {
      var d := replies[|sent|].value;
      assert BlogRun(pr, topic, replies, sent) == Loop(pr, d, false, 1, replies, logged);
      LoopLog(pr, d, false, 1, replies, logged);
      LoopEnd(pr, d, false, 1, replies, logged);
    }
  }

  /** The prompts of a run: after the writer's first prompt, evaluations
      and refinements alternate as `LoopPrompt` says, starting from the
      first draft. */
  lemma BlogRunTranscript(pr: Protocol, topic: string, replies: seq<Result<string>>, sent: seq<Prompt>)
    ensures var run := BlogRun(pr, topic, replies, sent);
      forall i :: |sent| <= i < |run.sent| - 1 ==> Answered(replies, i)
    ensures var run := BlogRun(pr, topic, replies, sent);
      |run.sent| > |sent| + 1 ==> (Answered(replies, |sent|) &&
        forall i :: |sent| < i < |run.sent| ==> run.sent[i] == LoopPrompt(pr, replies[|sent|].value, replies, |sent| + 1, i))
  {
    BlogRunCalls(pr, topic, replies, sent);
    var logged := sent + [UserPrompt(InitialPrompt(pr, topic))];
    if ReplyAt(replies, |sent|).Success? {
      LoopTranscript(pr, replies[|sent|].value, false, 1, replies, logged);
    }
  }

  /** The editor approves the first draft: two calls, and the first draft
      is the result. */
  lemma FirstDraftApproved(pr: Protocol, topic: string, replies: seq<Result<string>>, sent: seq<Prompt>)
    requires Answered(replies, |sent|) && Answered(replies, |sent| + 1)
    requires pr.approves(replies[|sent| + 1].value)
    ensures BlogRun(pr, topic, replies, sent) ==
      Run(replies[|sent|], sent + [UserPrompt(InitialPrompt(pr, topic)), UserPrompt(EvaluationPrompt(pr, replies[|sent|].value))])
  {
    var logged := sent + [UserPrompt(InitialPrompt(pr, topic))];
    var evaluate := UserPrompt(EvaluationPrompt(pr, replies[|sent|].value));
    assert logged + [evaluate] == sent + [UserPrompt(InitialPrompt(pr, topic)), evaluate];
  }

  /** The editor never approves: all MAX_ITERATIONS rounds run, and the
      result is the last refinement. */
  lemma EditorNeverApproves(pr: Protocol, topic: string, replies: seq<Result<string>>, sent: seq<Prompt>)
    requires forall i :: |sent| <= i < |sent| + 1 + 2 * MAX_ITERATIONS ==>
      Answered(replies, i) && ((i - |sent|) % 2 == 1 ==> !pr.approves(replies[i].value))
    ensures var run := BlogRun(pr, topic, replies, sent);
      |run.sent| == |sent| + 1 + 2 * MAX_ITERATIONS &&
      Answered(replies, |sent| + 2 * MAX_ITERATIONS) && run.outcome == replies[|sent| + 2 * MAX_ITERATIONS]
  {
    var run := BlogRun(pr, topic, replies, sent);
    BlogRunCalls(pr, topic, replies, sent);
    BlogRunResult(pr, topic, replies, sent);
    BlogRunRejections(pr, topic, replies, sent);
    BlogRunStops(pr, topic, replies, sent);
    assert Answered(replies, |run.sent| - 1);
  }

  /** The service, over its chat client. */
  class BlogWriterService {
    const chat: ChatClient
    const protocol: Protocol

    constructor (chat: ChatClient)
      ensures this.chat == chat && protocol == SOURCE_PROTOCOL
    {
      this.chat := chat;
      protocol := SOURCE_PROTOCOL;
    }

    /** `generateBlogPost`: what it returns and the prompts the client has
        received afterwards are those of `BlogRun`. */
    method GenerateBlogPost(topic: string) returns (r: Result<string>)
      modifies chat
      ensures r == BlogRun(protocol, topic, chat.replies, old(chat.sent)).outcome
      ensures chat.sent == BlogRun(protocol, topic, chat.replies, old(chat.sent)).sent
    {
      ghost var spec := BlogRun(protocol, topic, chat.replies, chat.sent);
      var initial := chat.Call(UserPrompt(InitialPrompt(protocol, topic)));
      if initial.Failure? {
        return Failure(initial.error);
      }
      var draft := initial.value;
      var approved := false;
      var iteration := 1;
      while !approved && iteration <= MAX_ITERATIONS
        invariant 1 <= iteration <= MAX_ITERATIONS + 1
        invariant Loop(protocol, draft, approved, iteration, chat.replies, chat.sent) == spec
        decreases MAX_ITERATIONS + 1 - iteration, !approved
      {
        ghost var sent := chat.sent;
        var outcome;
        outcome, approved := RunRound(draft);
        if outcome.Failure? {
          LoopFails(protocol, draft, iteration, chat.replies, sent);
          return outcome;
        }
        LoopGoesOn(protocol, draft, iteration, chat.replies, sent);
        draft := outcome.value;
        iteration := iteration + 1;
        // the state `LoopGoesOn` hands over to
        assert Loop(protocol, draft, approved, iteration, chat.replies, chat.sent) == spec;
      }
      return Success(draft);
    }

    /** The loop body, as `Round` describes it. */
    method RunRound(draft: string) returns (outcome: Result<string>, approved: bool)
      modifies chat
      ensures var step := Round(protocol, draft, chat.replies, |old(chat.sent)|);
        chat.sent == old(chat.sent) + step.prompts && outcome == step.outcome && approved == step.approved
    {
      var evaluate := UserPrompt(EvaluationPrompt(protocol, draft));
      var evaluation := chat.Call(evaluate);
      if evaluation.Failure? {
        return Failure(evaluation.error), false;
      }
      if protocol.approves(evaluation.value) {
        return Success(draft), true;
      }
      var feedback := protocol.feedback(evaluation.value);
      var refine := UserPrompt(RefinementPrompt(protocol, feedback, draft));
      outcome := chat.Call(refine);
      approved := false;
    }
  }
}
