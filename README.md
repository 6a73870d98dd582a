# Mindshift debate core in Dafny

Mindshift is a debating app. A user picks a topic and argues with an AI in
turns, trying to move the AI's stance on a scale from 0.0 (full support)
to 10.0 (full opposition). This project models the decision logic at the
heart of that loop:

- the JSON extractor for raw model output (`extractJsonObject`);
- the normalisation of a debate turn's model reply: clamping, fallbacks and
  placeholders (`getAiDebateResponse`);
- the final stance and terminal status written when a debate ends
  (`generateAndSaveSummary`);
- retrieval-augmented context: the three sentinel answers, the numbered
  block of at most three snippets, the embedded text, and the
  create-or-append rule of the vector table (`ragUtils.ts`);
- the debate-turn system prompt, and the initial-stance prompt and user
  message;
- the guard chains of `POST /api/debates` and `POST /api/topics`, over a
  store that changes only when the response is 201.

Each source file becomes one module:

- `JsonExtract`: the extractor as a loop, proved against the "first brace,
  shortest balanced span" specification.
- `AiService`: the turn result and the summary outcome.
- `RagUtils`: retrieval as a collecting loop, and saving as a `VectorStore`
  class.
- `DebatePrompt` and `InitialStancePrompt`: pure string builders.
- `DebatesRoute` and `TopicsRoute`: pure guard functions plus handler
  methods over the `Store` class.
- `Store`: the Prisma tables, as maps and a sequence updated in place.
- `Strings` and `Wrappers`: the JavaScript string behaviour the code relies
  on. This covers truthiness, `||` and `??`, `Array.prototype.join`,
  template concatenation, `${n}` for integers, `parseInt(s, 10)` and
  `String.prototype.trim` with the ECMAScript whitespace set.

Collaborators become parameters:

- The language model, `JSON.parse`, Prisma failures, the embedding model and
  the vector database are outcomes or faults passed in.
- `toFixed(1)` and `toFixed(2)` are the function parameters `fixed1` and
  `fixed2`.
- The clock is the integer `now`.
- `OPENAI_MODEL_NAME` is `envModel`.

A summary reply that is missing or empty after trimming does not mark the
debate `summary_failed`. It is stored as `[Summary generation failed]` with
status `completed` (src/lib/aiService.ts:108-114), and `SummaryText` and
`GenerateAndSaveSummary` model exactly that.

## Model

| member | source | states |
|---|---|---|
| JsonExtract.ExtractJsonObject | src/lib/ollamaService.ts:60-76 | the result is null when the text has no `{`; otherwise it is the shortest balanced span starting at the first `{`, or null when the depth never returns to zero |
| JsonExtract.IndexOf | src/lib/ollamaService.ts:61 | `indexOf('{')`: a found index holds the character with none before it; None means the character is absent |
| JsonExtract.IndexOfAt | src/lib/ollamaService.ts:61 | an occurrence with no earlier occurrence is the index `indexOf` reports |
| JsonExtract.DepthSnoc | src/lib/ollamaService.ts:65-69 | reading one more character raises the depth on `{`, lowers it on `}` and keeps it otherwise |
| JsonExtract.ObjectShape | src/lib/ollamaService.ts:70-71 | an extracted object starts with `{`, ends with `}` and has equally many opening and closing braces |
| JsonExtract.ShortestBalancedUnique | src/lib/ollamaService.ts:64-72 | at most one span from a given start is shortest balanced |
| JsonExtract.ExtractionIsUnique | src/lib/ollamaService.ts:60-76 | the extraction is a function of the text: two results that both satisfy it are equal |
| JsonExtract.CountAppend | src/lib/ollamaService.ts:64-69 | brace counts add up over concatenation |
| JsonExtract.DepthAppend | src/lib/ollamaService.ts:64-69 | the depth of a concatenation is the sum of the depths |
| JsonExtract.DepthOfPlain | src/lib/ollamaService.ts:65-69 | text without braces leaves the depth unchanged |
| JsonExtract.FlatObject | src/lib/ollamaService.ts:64-72 | a `{`, brace-free text and a `}` form a shortest balanced span |
| JsonExtract.FlatExtraction | src/lib/ollamaService.ts:60-76 | such a flat object after brace-free text is the extraction |
| JsonExtract.DepthOpenPlain | src/lib/ollamaService.ts:66-67 | after `{` and brace-free text the depth is 1 |
| JsonExtract.DepthTwoOpen | src/lib/ollamaService.ts:66-67 | after two `{` separated by brace-free text the depth is 2 |
| JsonExtract.NestedObject | src/lib/ollamaService.ts:64-72 | an object holding one nested flat object is balanced only at its outer `}` |
| JsonExtract.NestedExtraction | src/lib/server/__tests__/extractJsonObject.test.ts:10-14 | with text around it, the nested object is extracted whole, inner braces included |
| JsonExtract.FlatObjectExtraction | src/lib/server/__tests__/extractJsonObject.test.ts:4-8 | a flat object after a prefix without `{` (such as a `<think>` tag) is extracted, and the suffix is dropped |
| JsonExtract.QuotedBraceExample | src/lib/ollamaService.ts:64-72 | a `}` inside a JSON string value ends the scan early, because quotes are not recognised |
| JsonExtract.NoBraceExample | src/lib/server/__tests__/extractJsonObject.test.ts:16-20 | a text without `{` gives null |
| AiService.Clamp | src/lib/aiService.ts:58 | the result is on the 0..10 scale; in-range values are kept and out-of-range values go to the nearer end |
| AiService.ErrorReasoning | src/lib/aiService.ts:66 | the reasoning starts with "AI Error: " followed by the error's message, or by "Unknown AI error" for a non-Error |
| AiService.GetAiDebateResponse | src/lib/aiService.ts:31-70 | shift == new stance − stance before on every path; a throw before the reply is read leaves the stance unchanged, with the failure placeholder and the error reasoning; a throw from `parseFloat` keeps the response text already read (or its placeholder), leaves the stance unchanged and gives the error reasoning; on a reply the parsed stance (or the stance before, when it is NaN) is clamped, and missing texts are replaced; from an in-range stance the new stance stays in range and the shift stays within [-10, 10]; both texts are non-empty |
| AiService.FinalStance | src/lib/aiService.ts:92 | the last argument's stance after, when it has one; otherwise the initial stance |
| AiService.FinalStanceOnScale | src/lib/aiService.ts:92 | when the initial stance and every stance after are on the scale, so is the final stance |
| AiService.SummaryText | src/lib/aiService.ts:108 | the summary is never empty; missing or blank content gives the placeholder; otherwise the content trimmed, with no trimmable character at either end |
| AiService.LatestArgument | src/lib/aiService.ts:120 | the debate's row with the highest turn number, which is None exactly when the debate has no rows |
| AiService.LatestOfOrdered | src/lib/aiService.ts:92-120 | for rows of one debate in increasing turn order, the highest-turn row is the last one |
| AiService.FailurePathAgreesOnFinalStance | src/lib/aiService.ts:92-121 | when the stored rows are the summary's arguments in turn order and the last has a stance after, the failure path records the same final stance as the success path |
| AiService.CompletedDebate | src/lib/aiService.ts:111-114 | status completed, with the summary, final stance and completion time; every other column is unchanged |
| AiService.FailedDebate | src/lib/aiService.ts:120-121 | status summary_failed with the completion time; the final stance is the last argument's stance after (null when it has none), or unchanged when there is no argument; every other column is unchanged |
| AiService.GenerateAndSaveSummary | src/lib/aiService.ts:88-129 | a returned completion whose update succeeds saves the completed row; otherwise, when the lookup and update succeed, the summary_failed row is saved; otherwise nothing changes; topics and arguments never change |
| RagUtils.Snippet | lib/server/ragUtils.ts:99 | texts up to 300 characters are kept; longer ones are cut to their first 300 characters and followed by "..." |
| RagUtils.FormatEntry | lib/server/ragUtils.ts:95-99 | one entry: `[n]`, the similarity `1 - distance` when a distance is known, then the snippet (no contract of its own; `EntryShape` states its shape) |
| RagUtils.EntryShape | lib/server/ragUtils.ts:96-99 | an entry starts with `[n]` and ends with a space and the snippet, which is empty when the text is not a string |
| RagUtils.Entries | lib/server/ragUtils.ts:95-100 | one entry per result, in result order, numbered from one |
| RagUtils.FormatContext | lib/server/ragUtils.ts:94-100 | the header followed by the entries joined by a blank line (no contract of its own; `ContextLayout`, `ContextIsNoSentinel` and `AtMostThreeEntries` state its properties) |
| RagUtils.ContextLayout | lib/server/ragUtils.ts:93-100 | the block starts with the header; each entry appears whole at its place, followed by a blank line unless it is the last |
| RagUtils.SentinelsDistinct | lib/server/ragUtils.ts:72-108 | the three sentinel texts differ from each other |
| RagUtils.ContextIsNoSentinel | lib/server/ragUtils.ts:93-108 | a block of results never equals a sentinel |
| RagUtils.SearchHits | lib/server/ragUtils.ts:77-79 | the search yields a prefix of the ranked records, at most three long |
| RagUtils.RetrieveRelevantContext | lib/server/ragUtils.ts:60-110 | a failing embedding or connection gives the error text; a missing table gives the no-table text; a failing search gives the error text; no hits give the no-results text; otherwise the block of the hits |
| RagUtils.AtMostThreeEntries | lib/server/ragUtils.ts:79-100 | a block holds one to three entries, numbered `[1]`, `[2]`, … in order |
| RagUtils.TextToEmbed | lib/server/ragUtils.ts:127 | the text starts with the user argument, holds the AI response right after "\nAI response: " and ends with "\nReasoning: " and the reasoning; its length is the three parts' lengths plus 41 |
| RagUtils.VectorStore.constructor | lib/server/ragUtils.ts:136-137 | the table does not exist yet and holds nothing |
| RagUtils.VectorStore.RecordFor | lib/server/ragUtils.ts:141-164 | the stored record carries the embedded text, the vector and the turn's ids |
| RagUtils.VectorStore.SaveEmbedding | lib/server/ragUtils.ts:113-171 | when nothing throws, a missing table is created holding just the new record, and an existing table gets the record appended; any error leaves the table as it was |
| DebatePrompt.UserLabel | src/lib/prompts/debateResponsePrompt.ts:23 | the display name, else the username, else "User"; never empty |
| DebatePrompt.TurnOpening | src/lib/prompts/debateResponsePrompt.ts:25-32 | a turn opens with "Turn n (label):\nArgument: " and the argument; without an AI response it ends with "(Awaiting AI response)" and nothing else |
| DebatePrompt.TurnWithResponse | src/lib/prompts/debateResponsePrompt.ts:26-30 | with an AI response, the stance move `before → after` and the response follow the argument; a reasoning line ends the turn exactly when the reasoning is non-empty |
| DebatePrompt.UnrecordedStances | src/lib/prompts/debateResponsePrompt.ts:21-22 | a missing stance after shows as the stance-before text, and a missing stance before as "N/A" |
| DebatePrompt.TurnBlock | src/lib/prompts/debateResponsePrompt.ts:21-34 | the text of one turn, its heading and then its response lines (no contract of its own; `TurnOpening`, `TurnWithResponse` and `UnrecordedStances` state its shape) |
| DebatePrompt.History | src/lib/prompts/debateResponsePrompt.ts:20-36 | the turn texts joined by the rule (no contract of its own; `HistoryEmptyIff` and `HistoryOrder` state its properties) |
| DebatePrompt.TurnBlocks | src/lib/prompts/debateResponsePrompt.ts:20 | one block per earlier argument, in input order |
| DebatePrompt.HistoryEmptyIff | src/lib/prompts/debateResponsePrompt.ts:36-65 | the history is empty exactly when there are no earlier arguments, so only then is "[This is the first argument]" shown |
| DebatePrompt.HistoryOrder | src/lib/prompts/debateResponsePrompt.ts:20-36 | turn k appears whole at its offset; a "\n\n---\n\n" separator follows it, and the next turn starts right after that |
| DebatePrompt.GoalExplanation | src/lib/prompts/debateResponsePrompt.ts:41-46 | goal 'left' selects the towards-support text; any other value selects the towards-opposition text, and the two differ |
| DebatePrompt.ExampleShowsCurrentStance | src/lib/prompts/debateResponsePrompt.ts:39-51 | the stance the scale sentence calls current is the example answer's `newStance` |
| DebatePrompt.SystemPrompt | src/lib/prompts/debateResponsePrompt.ts:11-88 | the prompt template filled with the topic, the scale and goal sentences, the context, the history and the example (no contract of its own; the `Prompt…` lemmas below are stated for any template, this one included) |
| DebatePrompt.PromptNamesTopic | src/lib/prompts/debateResponsePrompt.ts:56 | the prompt opens by naming the topic in quotes |
| DebatePrompt.PromptStatesGoal | src/lib/prompts/debateResponsePrompt.ts:58-61 | the selected goal explanation stands on its own line right before the context section |
| DebatePrompt.PromptShowsContext | src/lib/prompts/debateResponsePrompt.ts:61-64 | the context section holds the retrieved context, or "[No additional context retrieved]" when it is empty |
| DebatePrompt.PromptShowsHistory | src/lib/prompts/debateResponsePrompt.ts:64-67 | the history section holds the history, or "[This is the first argument]" when it is empty, right before the instructions |
| DebatePrompt.PromptEndsWithExample | src/lib/prompts/debateResponsePrompt.ts:82-85 | the prompt ends with the example answer and the closing line |
| InitialStancePrompt.SystemPrompt | src/lib/prompts/initialStancePrompt.ts:4-33 | the fixed prompt: the preamble, the sentence naming the keys, then the key details (no contract of its own; `KeysInOrder` states the keys sentence) |
| InitialStancePrompt.KeysInOrder | src/lib/prompts/initialStancePrompt.ts:11 | the system prompt's keys sentence names "stance", "reasoning" and "scaleDefinitions", in that order |
| InitialStancePrompt.UserMessage | src/lib/prompts/initialStancePrompt.ts:36-38 | the message starts with "Topic: " and the name; it is exactly that long iff the description is null, undefined or empty |
| InitialStancePrompt.DescriptionAppended | src/lib/prompts/initialStancePrompt.ts:37 | a non-empty description adds "\nDescription: " and the description to the message without one; an empty one adds nothing |
| DebatesRoute.SessionUserId | src/app/api/debates/route.ts:13-19 | the request passes the 401 guard iff a session with a user id is present and `parseInt` reads a non-zero number from that id, which becomes the user id |
| DebatesRoute.SessionOfRenderedId | src/app/api/debates/route.ts:13-17 | a session whose id is the decimal text of a positive number identifies exactly that user |
| DebatesRoute.CheckDebateRequest | src/app/api/debates/route.ts:13-47 | 401 iff there is no valid user; an unreadable body gives the 500 with its message; 400 iff the topic id does not parse to non-zero or the goal is not left/right; a request that passes all three guards succeeds; on success the provider defaults to "openai" and the model to `OPENAI_MODEL_NAME`, then "gpt-4o-mini" |
| DebatesRoute.ErrorResponse | src/app/api/debates/route.ts:53-57 | status 500, with the error's message, or "Internal Server Error" for a non-Error |
| DebatesRoute.PostDebate | src/app/api/debates/route.ts:8-61 | guard failures pass through; a failing lookup or create gives 500; an unknown topic gives 404; otherwise 201 with a new active debate whose initial stance is the topic's current stance and whose user is the session user; the debates table and its key counter change only on 201, and the topics are untouched |
| TopicsRoute.NullIfEmpty | src/app/api/topics/route.ts:32-33 | an empty or absent text is stored as null; any other text is kept |
| TopicsRoute.CheckTopicRequest | src/app/api/topics/route.ts:14-33 | 401 iff there is no session or no session user; an unreadable body gives 500; 400 iff the name is missing or empty; a request with a session user and a non-empty name succeeds; on success the name is kept, a non-empty description or category is stored as given and an empty or absent one becomes null |
| TopicsRoute.PostTopic | src/app/api/topics/route.ts:10-45 | guard failures pass through; a failing create gives 500; otherwise 201 with a new topic at stance 5.0 and reasoning "Initial neutral stance."; the topics table and its key counter change only on 201, and the debates are untouched |
| Store.Store.CreateTopic | src/app/api/topics/route.ts:29-37 | the insert uses a fresh key, the row is stored under it and the key counter advances, with nothing else changed |
| Store.Store.CreateDebate | src/app/api/debates/route.ts:39-49 | the insert uses a fresh key with the unset columns empty, the row is stored under it and the key counter advances, with nothing else changed |
| Store.Store.UpdateDebate | src/lib/aiService.ts:111-114 | the row under the debate's key is replaced and nothing else changes |
| Strings.OrElse | src/lib/aiService.ts:55 | `s \|\| fallback`: a non-empty string is kept, otherwise the fallback |
| Strings.Join | src/lib/prompts/debateResponsePrompt.ts:36 | `Array.prototype.join` (no contract of its own; `JoinLayout` and `JoinEmptyIff` state its layout) |
| Strings.JoinLayout | src/lib/prompts/debateResponsePrompt.ts:36 | `join`: each part appears whole at its offset, with the separator between neighbours |
| Strings.JoinEmptyIff | src/lib/prompts/debateResponsePrompt.ts:36 | joining non-empty parts gives the empty string iff there are no parts |
| Strings.IntToString | src/lib/prompts/debateResponsePrompt.ts:25 | `${n}` of an integer starts with '-' iff the integer is negative; the digits (after the sign) denote the integer's magnitude |
| Strings.NatToStringRoundTrip | lib/server/ragUtils.ts:99 | the decimal digits of a natural number denote that number |
| Strings.NatToStringInjective | lib/server/ragUtils.ts:99 | different numbers render differently |
| Strings.DigitPrefix | src/app/api/debates/route.ts:25 | the longest prefix of decimal digits |
| Strings.ParseInt | src/app/api/debates/route.ts:14 | `parseInt(s, 10)`: skip leading whitespace, read one optional sign, then the longest digit run; no digits gives NaN (no contract of its own; `ParseIntOfRendered` and `ParseIntWithoutDigits` state its behaviour) |
| Strings.ParseIntOfRendered | src/app/api/debates/route.ts:25 | `parseInt` of a number's decimal text, whatever follows it, gives back the number |
| Strings.ParseIntWithoutDigits | src/app/api/debates/route.ts:25 | a text with no digit after the whitespace and sign (such as "undefined") parses to NaN |
| Strings.Trim | src/lib/aiService.ts:108 | `String.prototype.trim` with the ECMAScript whitespace set (no contract of its own; `TrimSpec` and `TrimEmptyIff` state its behaviour) |
| Strings.TrimStartSpec | src/lib/aiService.ts:108 | removing leading whitespace leaves a suffix, after only whitespace, that starts with a non-whitespace character or is empty |
| Strings.TrimEndSpec | src/lib/aiService.ts:108 | the mirror image for trailing whitespace |
| Strings.TrimSpec | src/lib/aiService.ts:108 | `trim` yields a slice surrounded by whitespace only, with non-whitespace characters at both ends when non-empty |
| Strings.TrimEmptyIff | src/lib/aiService.ts:108 | `trim` yields the empty string iff the text is whitespace only |

## Left out

- The turn handler, scoring, the debate state machine, the topics GET route, authentication, the UI and every other file are not part of this model.
- The literal prompts at src/lib/aiService.ts:43 and :96 contain stray markup, so their text is not reproduced. The summary history string built at :95-97 is left out too, because the model call that reads it is a parameter.
- `toFixed` and `parseFloat` are inputs: `fixed1` and `fixed2` are arbitrary functions, and the parsed stance is `Option<real>`, with None standing for NaN. The distance is an input too; the similarity `1 - _distance` is computed exactly in reals. Infinities and floating-point rounding are not modelled.
- A reply whose `aiResponse` or `reasoning` is a truthy non-string value (a number, say) is not modelled; the model reads both as optional strings.
- `parseInt` is modelled on the string it receives. A JSON number or other non-string `topicId` is converted to text first, and that conversion is not modelled. The precision limit of very long digit strings is not modelled either.
- Strings.ParseIntOfRendered: proved for non-negative numbers only. The round trip through a leading '-' is not proved.
- The embedding model, vector ranking and the `topicId` filter are not modelled. `ranked` stands for the records the search yields in rank order.
- `VECTOR_DB_PATH` and the table name are not modelled.
- Lengths are counted in code points, whereas JavaScript strings count UTF-16 units. This differs only for characters outside the Basic Multilingual Plane.
- Background and concurrent execution are not modelled. This covers the detached summary, races on the tables and `console` logging.
- Clock readings are the parameter `now`.
- DebatePrompt.PromptNamesTopic, DebatePrompt.PromptStatesGoal, DebatePrompt.PromptShowsContext, DebatePrompt.PromptShowsHistory and DebatePrompt.PromptEndsWithExample: stated for the template with any fixed texts (`PromptFrom`). `SystemPrompt` is that template filled with the prompt's own texts, so the lemmas hold of it, but no lemma is stated with the literal texts themselves.
- InitialStancePrompt.KeysInOrder: proved about the keys sentence. `SystemPrompt` contains that sentence by its definition, and the position of the sentence in the prompt is not stated as a lemma.
