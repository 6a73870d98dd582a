/** `getDebateResponseSystemPrompt`: the system prompt of a debate turn. It
    is template text around the topic, the current stance, the user's goal,
    the retrieved context and the history of earlier turns; an empty context
    or history is replaced by a fixed placeholder. Number formatting
    (`toFixed(1)`) is the parameter `fixed1`. */
module DebatePrompt {
  import opened Wrappers
  import opened Strings
  import opened Store

  const NotAvailable := "N/A"
  const DefaultUserLabel := "User"
  const TurnSeparator := "\n\n---\n\n"
  const ArgumentLead := "):\nArgument: "
  const ResponseLead := "\nAI Response (Stance "
  const Arrow := " \U{2192} "
  const ResponseTextLead := "):\n"
  const ReasoningLead := "\nReasoning: "
  const AwaitingResponse := "\n(Awaiting AI response)"
  const NoContextFallback := "[No additional context retrieved]"
  const FirstArgumentFallback := "[This is the first argument]"

  // ---------------------------------------------------------------------
  // One turn of the history

  /** `user?.displayName || user?.username || 'User'`. */
  function UserLabel(user: Option<UserInfo>): (r: string)
    ensures r != ""
    ensures user.Some? && Truthy(user.value.displayName) ==> r == user.value.displayName.value
    ensures user.Some? && !Truthy(user.value.displayName) && Truthy(user.value.username) ==> r == user.value.username.value
    ensures user.None? || (!Truthy(user.value.displayName) && !Truthy(user.value.username)) ==> r == DefaultUserLabel
  {
    if user.None? then DefaultUserLabel
    else OrElse(user.value.displayName, OrElse(user.value.username, DefaultUserLabel))
  }

  /** `stanceBefore?.toFixed(1) ?? 'N/A'`. */
  function StanceBeforeText(arg: ArgumentRow, fixed1: real -> string): string {
    if arg.stanceBefore.Some? then fixed1(arg.stanceBefore.value) else NotAvailable
  }

  /** `stanceAfter?.toFixed(1) ?? stanceBeforeText`. */
  function StanceAfterText(arg: ArgumentRow, fixed1: real -> string): string {
    if arg.stanceAfter.Some? then fixed1(arg.stanceAfter.value) else StanceBeforeText(arg, fixed1)
  }

  /** The first line of a turn and its argument. */
  function TurnHeading(arg: ArgumentRow): string {
    "Turn " + IntToString(arg.turnNumber) + " (" + UserLabel(arg.user) + ArgumentLead + arg.argumentText
  }

  /** What follows the argument: the AI's answer with the stance move and,
      when there is one, its reasoning; or a note that no answer came yet. */
  function ResponseLines(arg: ArgumentRow, fixed1: real -> string): string {
    if Truthy(arg.aiResponse) then
      ResponseLead + StanceBeforeText(arg, fixed1) + Arrow + StanceAfterText(arg, fixed1) + ResponseTextLead + arg.aiResponse.value
      + (if Truthy(arg.shiftReasoning) then ReasoningLead + arg.shiftReasoning.value else "")
    else
      AwaitingResponse
  }

  /** The text of one earlier turn. */
  function TurnBlock(arg: ArgumentRow, fixed1: real -> string): string {
    TurnHeading(arg) + ResponseLines(arg, fixed1)
  }

  // ---------------------------------------------------------------------
  // The history

  /** The turns' texts in input order. */
  function TurnBlocks(args: seq<ArgumentRow>, fixed1: real -> string): (r: seq<string>)
    ensures |r| == |args|
    ensures forall k :: 0 <= k < |r| ==> r[k] == TurnBlock(args[k], fixed1)
  {
    seq(|args|, k requires 0 <= k < |args| => TurnBlock(args[k], fixed1))
  }

  /** `previousArguments.map(...).join('\n\n---\n\n')`. */
  function History(args: seq<ArgumentRow>, fixed1: real -> string): string {
    Join(TurnBlocks(args, fixed1), TurnSeparator)
  }

  // ---------------------------------------------------------------------
  // Stance scale, goal and example

  const ScaleLead := "Your stance is on a scale from 0.0 (completely supportive of \""
  const ScaleMiddle := "\") to 10.0 (completely opposed to \""
  const ScaleCurrent := "\"), with 5.0 being neutral. Your current stance is "
  const ScaleEnd := "/10."

  /** The scale sentence, naming the topic at both ends of the scale and the
      current stance. */
  function StanceScaleExplanation(topicName: string, stanceBefore: real, fixed1: real -> string): string {
    ScaleLead + topicName + ScaleMiddle + topicName + ScaleCurrent + (fixed1(stanceBefore) + ScaleEnd)
  }

  const LeftGoalExplanation := "The user's goal is 'left'." + " This means they are trying to persuade you *towards 0 (Support)*. You should decrease your score (move closer to 0) ONLY IF their argument convincingly supports the topic or refutes arguments against it."
  const RightGoalExplanation := "The user's goal is 'right'." + " This means they are trying to persuade you *towards 10 (Opposition)*. You should increase your score (move closer to 10) ONLY IF their argument convincingly opposes the topic or refutes arguments for it."

  /** Goal 'left' asks to be moved towards support; any other value is read
      as 'right', towards opposition. */
  function GoalExplanation(goal: string): (r: string)
    ensures r == LeftGoalExplanation <==> goal == "left"
    ensures r == RightGoalExplanation <==> goal != "left"
  {
    assert LeftGoalExplanation[20] == 'l' && RightGoalExplanation[20] == 'r';
    if goal == "left" then LeftGoalExplanation else RightGoalExplanation
  }

  const ExampleOpening := "{\n  \"aiResponse\": \"You argued that [User's Point X]. While I understand the perspective, it overlooks [Counterpoint Y/Missing Evidence Z]. Therefore, my position remains unchanged because...\",\n"
  const NewStanceKey := "  \"newStance\": "
  const ExampleClosing := ",\n  \"reasoning\": \"User's argument about X lacked sufficient evidence/failed to address counterpoint Y, thus not warranting a stance shift.\"\n}"

  /** The example answer, whose `newStance` is the current stance. */
  function ExampleJson(stanceBefore: real, fixed1: real -> string): string {
    ExampleOpening + (NewStanceKey + fixed1(stanceBefore)) + ExampleClosing
  }

  // ---------------------------------------------------------------------
  // The whole prompt

  const PromptOpening := "You are MindShift AI, participating in a structured debate on the topic: \""
  const TopicClose := "\".\n\n"
  const ContextHeading := "\n\nRAG CONTEXT (Insights from similar past arguments, use as secondary information):\n"
  const HistoryHeading := "\n\nDEBATE HISTORY (Previous Turns):\n"
  /** The fixed instructions and answer format, up to the example. */
  const Instructions :=
    "\n\nINSTRUCTIONS FOR THIS TURN:\n"
    + "1.  **Analyze the User's NEW Argument:** Carefully read and understand the user's latest argument provided in the upcoming user message.\n"
    + "2.  **Evaluate Persuasiveness:** Assess the logic, evidence, and relevance of the user's argument specifically in relation to persuading you towards their stated goal ('left' towards Support/0 or 'right' towards Opposition/10).\n"
    + "3.  **Consider History & Context:** Weigh the new argument against the points made in the DEBATE HISTORY and consider if the RAG CONTEXT offers relevant parallels, but prioritize the immediate argument.\n"
    + "4.  **Determine Stance Shift:** Decide if the argument justifies adjusting your stance score (0.0-10.0). Shifts should be logical and proportional. A strong, relevant argument aligned with the user's goal might cause a shift; a weak or irrelevant one might cause none. Remain reasonably objective but open to genuine persuasion.\n"
    + "5.  **Formulate AI Response:** Craft a thoughtful response addressing the user's key points. Explain your evaluation of their argument.\n"
    + "6.  **Calculate New Stance:** Set your precise `newStance` score (between 0.0 and 10.0). This can be the same as `stanceBefore` if no shift occurred.\n"
    + "7.  **Explain Reasoning:** Provide a concise `reasoning` string explaining *why* your stance changed or didn't change, linking it directly to your assessment of the user's *current* argument.\n"
    + "\n"
    + "RESPONSE FORMAT:\n"
    + "You MUST return ONLY a single, valid JSON object with the following exact keys and data types:\n"
    + "   - \"aiResponse\": (string) Your detailed textual response to the user's argument.\n"
    + "   - \"newStance\": (number) Your new stance score (0.0 to 10.0).\n"
    + "   - \"reasoning\": (string) Your concise explanation for the stance change (or lack thereof) based *only* on the user's last argument.\n"
    + "\n"
    + "Example JSON Output:\n"
  const PromptClosing := "\n\nEnsure the output is ONLY the JSON object, with no extra text before or after."

  /** The fixed texts of the template, in the order they appear. */
  datatype PromptTemplate = PromptTemplate(
    opening: string,
    topicClose: string,
    contextHeading: string,
    noContext: string,
    historyHeading: string,
    firstArgument: string,
    instructions: string,
    closing: string)

  /** The texts of the debate prompt. */
  const Template := PromptTemplate(
    PromptOpening, TopicClose, ContextHeading, NoContextFallback,
    HistoryHeading, FirstArgumentFallback, Instructions, PromptClosing)

  /** The template's pieces in order, around the variable parts; an empty
      context or history gives way to its placeholder (`||`). */
  function PromptSegments(
    tpl: PromptTemplate, topicName: string, scale: string, goalText: string, context: string, history: string, example: string)
    : seq<string>
  {
    [tpl.opening, topicName, tpl.topicClose, scale, "\n", goalText,
     tpl.contextHeading, if context != "" then context else tpl.noContext,
     tpl.historyHeading, if history != "" then history else tpl.firstArgument,
     tpl.instructions, example, tpl.closing]
  }

  /** The template filled in. */
  function PromptFrom(
    tpl: PromptTemplate, topicName: string, scale: string, goalText: string, context: string, history: string, example: string)
    : string
  {
    Concat(PromptSegments(tpl, topicName, scale, goalText, context, history, example))
  }

  /** `getDebateResponseSystemPrompt`: the template filled with the topic,
      the scale and goal sentences, the context, the history and the
      example answer. */
  function SystemPrompt(
    topicName: string, stanceBefore: real, goal: string, args: seq<ArgumentRow>, context: string, fixed1: real -> string)
    : string
  {
    PromptFrom(Template, topicName, StanceScaleExplanation(topicName, stanceBefore, fixed1), GoalExplanation(goal),
               context, History(args, fixed1), ExampleJson(stanceBefore, fixed1))
  }

  // ---------------------------------------------------------------------
  // Properties

  /** A turn opens with its number, its author and the argument; without an
      AI answer it closes with the awaiting note. */
  lemma TurnOpening(arg: ArgumentRow, fixed1: real -> string)
    ensures var block := TurnBlock(arg, fixed1);
      && StartsWith(block, "Turn " + IntToString(arg.turnNumber) + " (" + UserLabel(arg.user) + ArgumentLead + arg.argumentText)
      && (!Truthy(arg.aiResponse) ==> EndsWith(block, AwaitingResponse) && |block| == |TurnHeading(arg)| + |AwaitingResponse|)
  {
    var heading := TurnHeading(arg);
    var block := TurnBlock(arg, fixed1);
    assert block[..|heading|] == heading;
  }

  /** With an AI answer, the turn shows the stance move `before → after` and
      the answer right after the argument, and ends with the reasoning line
      exactly when the reasoning is non-empty (otherwise with the answer). */
  lemma TurnWithResponse(arg: ArgumentRow, fixed1: real -> string)
    requires Truthy(arg.aiResponse)
    ensures var block := TurnBlock(arg, fixed1);
      var answer := ResponseLead + StanceBeforeText(arg, fixed1) + Arrow + StanceAfterText(arg, fixed1) + ResponseTextLead + arg.aiResponse.value;
      && OccursAt(answer, block, |TurnHeading(arg)|)
      && (Truthy(arg.shiftReasoning) ==> EndsWith(block, ReasoningLead + arg.shiftReasoning.value))
      && (!Truthy(arg.shiftReasoning) ==> |block| == |TurnHeading(arg)| + |answer|)
  {
    var heading := TurnHeading(arg);
    var answer := ResponseLead + StanceBeforeText(arg, fixed1) + Arrow + StanceAfterText(arg, fixed1) + ResponseTextLead + arg.aiResponse.value;
    var reasoning := if Truthy(arg.shiftReasoning) then ReasoningLead + arg.shiftReasoning.value else "";
    var block := TurnBlock(arg, fixed1);
    assert block == heading + answer + reasoning;
    assert block[|heading|..|heading| + |answer|] == answer;
    assert block[|block| - |reasoning|..] == reasoning;
  }

  /** A missing stance after the turn shows as no move from the stance
      before; a missing stance before shows as "N/A". */
  lemma UnrecordedStances(arg: ArgumentRow, fixed1: real -> string)
    requires Truthy(arg.aiResponse)
    ensures arg.stanceAfter.None? ==>
      var before := StanceBeforeText(arg, fixed1);
      OccursAt(ResponseLead + before + Arrow + before + ResponseTextLead, TurnBlock(arg, fixed1), |TurnHeading(arg)|)
    ensures arg.stanceBefore.None? && arg.stanceAfter.None? ==>
      OccursAt(ResponseLead + NotAvailable + Arrow + NotAvailable + ResponseTextLead, TurnBlock(arg, fixed1), |TurnHeading(arg)|)
    ensures arg.stanceBefore.None? && arg.stanceAfter.Some? ==>
      OccursAt(ResponseLead + NotAvailable + Arrow + fixed1(arg.stanceAfter.value) + ResponseTextLead, TurnBlock(arg, fixed1), |TurnHeading(arg)|)
  {
    var heading := TurnHeading(arg);
    var move := ResponseLead + StanceBeforeText(arg, fixed1) + Arrow + StanceAfterText(arg, fixed1) + ResponseTextLead;
    var rest := ResponseLines(arg, fixed1)[|move|..];
    assert ResponseLines(arg, fixed1) == move + rest;
    assert TurnBlock(arg, fixed1) == heading + move + rest;
    assert TurnBlock(arg, fixed1)[|heading|..|heading| + |move|] == move;
  }

  /** The history is empty exactly when there are no earlier turns, so its
      placeholder is shown exactly then. */
  lemma HistoryEmptyIff(args: seq<ArgumentRow>, fixed1: real -> string)
    ensures History(args, fixed1) == "" <==> args == []
  {
    var blocks := TurnBlocks(args, fixed1);
    forall k | 0 <= k < |blocks| ensures blocks[k] != "" {
      assert |blocks[k]| >= |"Turn "|;
    }
    JoinEmptyIff(blocks, TurnSeparator);
  }

  /** Turn `k` appears whole in the history at its offset; a separator
      follows it, and the next turn starts right after that separator. */
  lemma HistoryOrder(args: seq<ArgumentRow>, fixed1: real -> string, k: nat)
    requires k < |args|
    ensures var blocks := TurnBlocks(args, fixed1);
      var history := History(args, fixed1);
      var at := Offset(blocks, TurnSeparator, k);
      && blocks[k] == TurnBlock(args[k], fixed1)
      && OccursAt(blocks[k], history, at)
      && (k + 1 < |args| ==>
            && OccursAt(TurnSeparator, history, at + |blocks[k]|)
            && Offset(blocks, TurnSeparator, k + 1) == at + |blocks[k]| + |TurnSeparator|)
  {
    var blocks := TurnBlocks(args, fixed1);
    assert History(args, fixed1) == Join(blocks, TurnSeparator);
    JoinLayout(blocks, TurnSeparator, k);
  }


  /** The stance the scale sentence calls current is the `newStance` of the
      example answer. */
  lemma ExampleShowsCurrentStance(topicName: string, stanceBefore: real, fixed1: real -> string)
    ensures EndsWith(StanceScaleExplanation(topicName, stanceBefore, fixed1), fixed1(stanceBefore) + ScaleEnd)
    ensures OccursAt(NewStanceKey + fixed1(stanceBefore), ExampleJson(stanceBefore, fixed1), |ExampleOpening|)
  {
    var current := fixed1(stanceBefore) + ScaleEnd;
    EndsWithAppended(ScaleLead + topicName + ScaleMiddle + topicName + ScaleCurrent, current);
    OccursBetween(ExampleOpening, NewStanceKey + fixed1(stanceBefore), ExampleClosing);
  }

  // The layout of a filled-in template. These hold for every choice of
  // fixed texts, so in particular for `Template`, which `SystemPrompt` fills.

  /** The prompt opens by naming the topic in quotes. */
  lemma PromptNamesTopic(
    tpl: PromptTemplate, topicName: string, scale: string, goalText: string, context: string, history: string, example: string)
    ensures StartsWith(PromptFrom(tpl, topicName, scale, goalText, context, history, example), tpl.opening + topicName + tpl.topicClose)
  {
    var segs := PromptSegments(tpl, topicName, scale, goalText, context, history, example);
    ConcatThreeAt(segs, 0);
    assert segs[..0] == [];
  }

  /** The goal explanation stands on its own line right before the context
      section. */
  lemma PromptStatesGoal(
    tpl: PromptTemplate, topicName: string, scale: string, goalText: string, context: string, history: string, example: string)
    ensures exists i :: OccursAt("\n" + goalText + tpl.contextHeading, PromptFrom(tpl, topicName, scale, goalText, context, history, example), i)
  {
    var segs := PromptSegments(tpl, topicName, scale, goalText, context, history, example);
    ConcatThreeAt(segs, 4);
    var prompt := PromptFrom(tpl, topicName, scale, goalText, context, history, example);
    assert prompt == Concat(segs);
    var at := |Concat(segs[..4])|;
    assert OccursAt("\n" + goalText + tpl.contextHeading, prompt, at);
  }

  /** The context section holds the retrieved context, or the placeholder
      when that is empty. */
  lemma PromptShowsContext(
    tpl: PromptTemplate, topicName: string, scale: string, goalText: string, context: string, history: string, example: string)
    ensures var prompt := PromptFrom(tpl, topicName, scale, goalText, context, history, example);
      && (context == "" ==> exists i :: OccursAt(tpl.contextHeading + tpl.noContext + tpl.historyHeading, prompt, i))
      && (context != "" ==> exists i :: OccursAt(tpl.contextHeading + context + tpl.historyHeading, prompt, i))
  {
    var segs := PromptSegments(tpl, topicName, scale, goalText, context, history, example);
    ConcatThreeAt(segs, 6);
    var shown := if context != "" then context else tpl.noContext;
    var prompt := PromptFrom(tpl, topicName, scale, goalText, context, history, example);
    assert prompt == Concat(segs);
    var at := |Concat(segs[..6])|;
    assert OccursAt(tpl.contextHeading + shown + tpl.historyHeading, prompt, at);
  }

  /** The history section holds the earlier turns, or the placeholder when
      the history is empty, right before the instructions. */
  lemma PromptShowsHistory(
    tpl: PromptTemplate, topicName: string, scale: string, goalText: string, context: string, history: string, example: string)
    ensures var prompt := PromptFrom(tpl, topicName, scale, goalText, context, history, example);
      && (history == "" ==> exists i :: OccursAt(tpl.historyHeading + tpl.firstArgument + tpl.instructions, prompt, i))
      && (history != "" ==> exists i :: OccursAt(tpl.historyHeading + history + tpl.instructions, prompt, i))
  {
    var segs := PromptSegments(tpl, topicName, scale, goalText, context, history, example);
    ConcatThreeAt(segs, 8);
    var shown := if history != "" then history else tpl.firstArgument;
    var prompt := PromptFrom(tpl, topicName, scale, goalText, context, history, example);
    assert prompt == Concat(segs);
    var at := |Concat(segs[..8])|;
    assert OccursAt(tpl.historyHeading + shown + tpl.instructions, prompt, at);
  }

  /** The prompt ends with the example answer and the closing line. */
  lemma PromptEndsWithExample(
    tpl: PromptTemplate, topicName: string, scale: string, goalText: string, context: string, history: string, example: string)
    ensures EndsWith(PromptFrom(tpl, topicName, scale, goalText, context, history, example), example + tpl.closing)
  {
    var segs := PromptSegments(tpl, topicName, scale, goalText, context, history, example);
    ConcatEndsWith(segs, 11);
    assert segs[11..] == [example, tpl.closing];
    ConcatTwo(example, tpl.closing);
  }
}
