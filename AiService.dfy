/** The decision logic of `aiService.ts` around its two model calls.
    `getAiDebateResponse` turns the outcome of one completion into the turn's
    response text, new stance, shift and reasoning, and never throws.
    `generateAndSaveSummary` ends a debate: it records the summary and final
    stance with status completed, or, when anything fails, tries to record
    status summary_failed with the highest turn's stance, swallowing a second
    failure. The model calls, `JSON.parse` and Prisma are collaborators whose
    outcomes are parameters. */
module AiService {
  import opened Wrappers
  import opened Strings
  import opened Store

  const FailedResponseText := "[AI response generation failed]"
  const MissingResponseText := "[AI failed response text]"
  const MissingReasoningText := "[AI failed reasoning]"
  const ErrorPrefix := "AI Error: "
  const UnknownErrorText := "Unknown AI error"
  const FailedSummaryText := "[Summary generation failed]"

  // ---------------------------------------------------------------------
  // getAiDebateResponse

  /** The fields of a reply that parsed, as the handler reads them: the two
      texts when present, and `parseFloat(newStance)`, which is None when it
      is NaN. */
  datatype ModelReply = ModelReply(aiResponse: Option<string>, newStance: Option<real>, reasoning: Option<string>)

  /** How the reply is read: the completion call, `JSON.parse` or reading
      `aiResponse` from a null result throws before any default is
      overwritten (`Failed`); or the reply's `aiResponse` is read and then
      `parseFloat(newStance)` throws, as it does for an object whose
      conversion to text fails (`StanceThrew`); or every field is read
      (`Replied`). */
  datatype ModelOutcome =
    | Failed(error: Thrown)
    | StanceThrew(aiResponse: Option<string>, stanceError: Thrown)
    | Replied(reply: ModelReply)

  datatype TurnResult = TurnResult(aiResponseText: string, newStance: real, stanceShift: real, shiftReasoning: string)

  /** `Math.max(0, Math.min(10, x))`. */
  function Clamp(x: real): (r: real)
    ensures InStanceRange(r)
    ensures InStanceRange(x) ==> r == x
    ensures x < 0.0 ==> r == 0.0
    ensures x > 10.0 ==> r == 10.0
  {
    var upper := if x < 10.0 then x else 10.0;
    if 0.0 > upper then 0.0 else upper
  }

  /** The reasoning recorded when the call fails: the error's message after
      "AI Error: ", or a generic text for anything that is not an `Error`. */
  function ErrorReasoning(e: Thrown): (r: string)
    ensures StartsWith(r, ErrorPrefix)
    ensures e.ErrorWithMessage? ==> r[|ErrorPrefix|..] == e.message
    ensures e.NonError? ==> r[|ErrorPrefix|..] == UnknownErrorText
  {
    ErrorPrefix + if e.ErrorWithMessage? then e.message else UnknownErrorText
  }

  /** The defaults are set first; a reply overwrites them in order, and a
      throw keeps what was written before it and overwrites the reasoning. */
  method GetAiDebateResponse(stanceBefore: real, outcome: ModelOutcome) returns (r: TurnResult)
    ensures r.stanceShift == r.newStance - stanceBefore
    ensures outcome.Failed? ==>
      r == TurnResult(FailedResponseText, stanceBefore, 0.0, ErrorReasoning(outcome.error))
    ensures outcome.StanceThrew? ==>
      r == TurnResult(OrElse(outcome.aiResponse, MissingResponseText), stanceBefore, 0.0, ErrorReasoning(outcome.stanceError))
    ensures outcome.Replied? ==>
      && InStanceRange(r.newStance)
      && r.newStance == Clamp(outcome.reply.newStance.GetOr(stanceBefore))
      && r.aiResponseText == OrElse(outcome.reply.aiResponse, MissingResponseText)
      && r.shiftReasoning == OrElse(outcome.reply.reasoning, MissingReasoningText)
    ensures InStanceRange(stanceBefore) ==> InStanceRange(r.newStance) && -10.0 <= r.stanceShift <= 10.0
    ensures r.aiResponseText != "" && r.shiftReasoning != ""
  {
    var aiResponseText := FailedResponseText;
    var newStance := stanceBefore;
    var stanceShift := 0.0;
    var shiftReasoning := "AI Error: Could not process response.";
    match outcome {
      case Failed(e) =>
        shiftReasoning := ErrorReasoning(e);
      case StanceThrew(aiResponse, e) =>
        aiResponseText := OrElse(aiResponse, MissingResponseText);
        shiftReasoning := ErrorReasoning(e);
      case Replied(reply) =>
        aiResponseText := OrElse(reply.aiResponse, MissingResponseText);
        var potentialStance := reply.newStance.GetOr(stanceBefore);
        newStance := Clamp(potentialStance);
        stanceShift := newStance - stanceBefore;
        shiftReasoning := OrElse(reply.reasoning, MissingReasoningText);
    }
    return TurnResult(aiResponseText, newStance, stanceShift, shiftReasoning);
  }

  // ---------------------------------------------------------------------
  // generateAndSaveSummary

  /** The inputs the status logic reads; the topic name, goal and points only
      feed the history text sent to the model. */
  datatype SummaryInput = SummaryInput(debateId: nat, initialStance: real, arguments: seq<ArgumentRow>)

  /** The summary completion either throws or returns its content, which may
      be missing. */
  datatype Completion = CompletionFailed | CompletionReturned(content: Option<string>)

  /** Store errors other than a missing row: the completed-status update, the
      last-argument lookup and the failed-status update. */
  datatype SummaryFaults = SummaryFaults(saveFails: bool, lookupFails: bool, markFails: bool)

  /** The stance recorded on success: the last argument's `stanceAfter`, or
      the debate's initial stance when there is no argument or it has none. */
  function FinalStance(initialStance: real, args: seq<ArgumentRow>): (r: real)
    ensures args != [] && args[|args| - 1].stanceAfter.Some? ==> r == args[|args| - 1].stanceAfter.value
    ensures args == [] || args[|args| - 1].stanceAfter.None? ==> r == initialStance
  {
    if args != [] && args[|args| - 1].stanceAfter.Some? then args[|args| - 1].stanceAfter.value else initialStance
  }

  /** Every recorded stance on the scale keeps the final stance on it. */
  lemma FinalStanceOnScale(initialStance: real, args: seq<ArgumentRow>)
    requires InStanceRange(initialStance)
    requires forall i :: 0 <= i < |args| && args[i].stanceAfter.Some? ==> InStanceRange(args[i].stanceAfter.value)
    ensures InStanceRange(FinalStance(initialStance, args))
  {
    if args != [] && args[|args| - 1].stanceAfter.Some? {
      assert InStanceRange(args[|args| - 1].stanceAfter.value);
    }
  }

  /** `content?.trim() || "[Summary generation failed]"`: the trimmed text,
      or the placeholder when there is no content or it is only white
      space. */
  function SummaryText(content: Option<string>): (r: string)
    ensures r != ""
    ensures content.None? || AllTrimmable(content.value) ==> r == FailedSummaryText
    ensures content.Some? && !AllTrimmable(content.value) ==>
      r == Trim(content.value) && !IsTrimmable(r[0]) && !IsTrimmable(r[|r| - 1])
  {
    if content.None? then FailedSummaryText
    else
      var t := Trim(content.value);
      TrimEmptyIff(content.value);
      TrimSpec(content.value);
      if t != "" then t else FailedSummaryText
  }

  /** `findFirst({ where: { debateId }, orderBy: { turnNumber: 'desc' } })`:
      an argument of the debate with the highest turn number (the earliest
      stored one among equals), or None when the debate has none. */
  function LatestArgument(rows: seq<ArgumentRow>, debateId: nat): (r: Option<ArgumentRow>)
    ensures r.None? <==> forall i :: 0 <= i < |rows| ==> rows[i].debateId != debateId
    ensures r.Some? ==> r.value in rows && r.value.debateId == debateId
    ensures r.Some? ==> forall i :: 0 <= i < |rows| && rows[i].debateId == debateId ==> rows[i].turnNumber <= r.value.turnNumber
  {
    if rows == [] then None
    else
      var rest := LatestArgument(rows[1..], debateId);
      if rows[0].debateId != debateId then rest
      else if rest.Some? && rest.value.turnNumber > rows[0].turnNumber then rest
      else Some(rows[0])
  }

  /** The arguments of one debate in ascending turn order. */
  predicate InTurnOrder(rows: seq<ArgumentRow>, debateId: nat) {
    && (forall i :: 0 <= i < |rows| ==> rows[i].debateId == debateId)
    && (forall i, j :: 0 <= i < j < |rows| ==> rows[i].turnNumber < rows[j].turnNumber)
  }

  /** In rows of one debate in ascending turn order, the highest turn is the
      last row. */
  lemma {:induction false} LatestOfOrdered(rows: seq<ArgumentRow>, debateId: nat)
    requires rows != [] && InTurnOrder(rows, debateId)
    ensures LatestArgument(rows, debateId) == Some(rows[|rows| - 1])
  {
    if |rows| > 1 {
      var tail := rows[1..];
      assert InTurnOrder(tail, debateId) by {
        forall i, j | 0 <= i < j < |tail| ensures tail[i].turnNumber < tail[j].turnNumber {
          assert tail[i] == rows[i + 1] && tail[j] == rows[j + 1];
        }
      }
      LatestOfOrdered(tail, debateId);
      assert rows[0].turnNumber < rows[|rows| - 1].turnNumber;
    }
  }

  /** When the stored arguments are exactly the ones passed in, in turn order,
      and the last has a stance, the failure path records the same final
      stance as the success path. */
  lemma FailurePathAgreesOnFinalStance(rows: seq<ArgumentRow>, input: SummaryInput)
    requires input.arguments == rows && rows != [] && InTurnOrder(rows, input.debateId)
    requires rows[|rows| - 1].stanceAfter.Some?
    ensures LatestArgument(rows, input.debateId).Some?
    ensures LatestArgument(rows, input.debateId).value.stanceAfter == Some(FinalStance(input.initialStance, input.arguments))
  {
    LatestOfOrdered(rows, input.debateId);
  }

  /** The debate row after the completed-status update. */
  function CompletedDebate(d: Debate, summary: string, finalStance: real, now: int): (r: Debate)
    ensures r.status == Completed && r.summaryArticle == Some(summary) && r.finalStance == Some(finalStance)
    ensures r.completedAt == Some(now)
    ensures r.(status := d.status, summaryArticle := d.summaryArticle, finalStance := d.finalStance, completedAt := d.completedAt) == d
  {
    d.(status := Completed, completedAt := Some(now), summaryArticle := Some(summary), finalStance := Some(finalStance))
  }

  /** The debate row after the failed-status update. `finalStance:
      lastArg?.stanceAfter` is undefined when there is no argument, and
      Prisma then leaves the column as it was. */
  function FailedDebate(d: Debate, lastArg: Option<ArgumentRow>, now: int): (r: Debate)
    ensures r.status == SummaryFailed && r.completedAt == Some(now)
    ensures lastArg.Some? ==> r.finalStance == lastArg.value.stanceAfter
    ensures lastArg.None? ==> r.finalStance == d.finalStance
    ensures r.summaryArticle == d.summaryArticle
    ensures r.(status := d.status, finalStance := d.finalStance, completedAt := d.completedAt) == d
  {
    d.(status := SummaryFailed, completedAt := Some(now),
       finalStance := if lastArg.Some? then lastArg.value.stanceAfter else d.finalStance)
  }

  /** The try block records the summary; any error moves to the catch block,
      which looks up the last argument and records the failure; an error
      there is swallowed. `now` is the clock reading for `completedAt`. */
  method GenerateAndSaveSummary(store: Store, input: SummaryInput, completion: Completion, faults: SummaryFaults, now: int)
    requires store.Valid()
    modifies store
    ensures store.Valid()
    ensures store.topics == old(store.topics) && store.arguments == old(store.arguments)
    ensures store.nextTopicId == old(store.nextTopicId) && store.nextDebateId == old(store.nextDebateId)
    ensures var id := input.debateId;
      var saved := completion.CompletionReturned? && id in old(store.debates) && !faults.saveFails;
      var marked := !saved && !faults.lookupFails && id in old(store.debates) && !faults.markFails;
      && (saved ==> store.debates == old(store.debates)[id :=
            CompletedDebate(old(store.debates)[id], SummaryText(completion.content), FinalStance(input.initialStance, input.arguments), now)])
      && (marked ==> store.debates == old(store.debates)[id :=
            FailedDebate(old(store.debates)[id], LatestArgument(old(store.arguments), id), now)])
      && (!saved && !marked ==> store.debates == old(store.debates))
  {
    var id := input.debateId;
    var finalStance := FinalStance(input.initialStance, input.arguments);
    var saved := false;
    if completion.CompletionReturned? {
      var summaryText := SummaryText(completion.content);
      if id in store.debates && !faults.saveFails {
        store.UpdateDebate(CompletedDebate(store.debates[id], summaryText, finalStance, now));
        saved := true;
      }
    }
    if !saved && !faults.lookupFails {
      var lastArg := LatestArgument(store.arguments, id);
      if id in store.debates && !faults.markFails {
        store.UpdateDebate(FailedDebate(store.debates[id], lastArg, now));
      }
    }
  }
}
