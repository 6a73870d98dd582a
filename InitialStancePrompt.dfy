/** `initialStancePrompt.ts`: the fixed system prompt that asks for a topic's
    initial stance, and the user message naming the topic. */
module InitialStancePrompt {
  import opened Wrappers
  import opened Strings

  const StanceKey := "\"stance\""
  const ReasoningKey := "\"reasoning\""
  const ScaleDefinitionsKey := "\"scaleDefinitions\""

  /** The sentence that names the three keys of the expected answer. */
  const KeysLead := "Your JSON response MUST contain exactly three keys: "
  const KeysSentence := KeysLead + StanceKey + ", " + ReasoningKey + ", and " + ScaleDefinitionsKey + "."

  /** The text before the keys sentence: output discipline and the scale. */
  const Preamble :=
    "IMPORTANT: Your *only* output must be a single, valid JSON object. Do not include any text before or after the JSON structure.\n"
    + "\n"
    + "Analyze the provided topic and determine your initial stance using a precise scale from 0.0 (completely supportive/in favor) to 10.0 (completely opposed/against), with 5.0 being neutral.\n"
    + "\n"

  /** The text after the keys sentence: what each key holds, an example of
      the scale definitions and the closing reminder. */
  const Details :=
    "\n"
    + "\n"
    + "1.  **\"stance\"**: (number) Your precise stance score between 0.0 and 10.0.\n"
    + "2.  **\"reasoning\"**: (string) Your detailed explanation for the chosen stance score, explaining the key factors considered.\n"
    + "3.  **\"scaleDefinitions\"**: (object) An object where keys are strings \"0\" through \"10\", and values are brief strings describing the meaning of that score *specifically for this topic*.\n"
    + "\n"
    + "Example \"scaleDefinitions\" structure:\n"
    + "\"scaleDefinitions\": {\n"
    + "  \"0\": \"Complete, unconditional support for [Topic aspect]\",\n"
    + "  \"1\": \"Very strong support, minor reservations about [Specific detail]\",\n"
    + "  \"2\": \"Strong support, but acknowledging [Counter-argument]\",\n"
    + "  \"3\": \"Moderate support, focusing on [Positive aspect]\",\n"
    + "  \"4\": \"Leaning supportive, but with significant concerns about [Concern]\",\n"
    + "  \"5\": \"Strictly neutral, balancing [Pro-argument] and [Con-argument]\",\n"
    + "  \"6\": \"Leaning opposed, primarily due to [Negative aspect]\",\n"
    + "  \"7\": \"Moderate opposition, highlighting [Risk/Drawback]\",\n"
    + "  \"8\": \"Strong opposition, based on [Strong counter-argument]\",\n"
    + "  \"9\": \"Very strong opposition, rejecting [Core premise]\",\n"
    + "  \"10\": \"Complete, unconditional opposition to [Topic aspect]\"\n"
    + "}\n"
    + "\n"
    + "Remember: Respond ONLY with the valid JSON object containing these three keys (\"stance\", \"reasoning\", \"scaleDefinitions\"). No other text or formatting outside the JSON."

  /** `getInitialStanceSystemPrompt`: the same text whatever the topic,
      with the sentence naming the three keys right after the preamble. */
  function SystemPrompt(): string {
    Preamble + KeysSentence + Details
  }

  /** The keys sentence names the three keys, in the order stance,
      reasoning, scale definitions. */
  lemma KeysInOrder()
    ensures OccursAt(StanceKey, KeysSentence, |KeysLead|)
    ensures OccursAt(ReasoningKey, KeysSentence, |KeysLead| + |StanceKey| + 2)
    ensures OccursAt(ScaleDefinitionsKey, KeysSentence, |KeysLead| + |StanceKey| + |ReasoningKey| + 8)
  {
    var afterStance := ", " + ReasoningKey + ", and " + ScaleDefinitionsKey + ".";
    assert KeysSentence == KeysLead + StanceKey + afterStance;
    OccursBetween(KeysLead, StanceKey, afterStance);
    var beforeReasoning := KeysLead + StanceKey + ", ";
    var afterReasoning := ", and " + ScaleDefinitionsKey + ".";
    assert KeysSentence == beforeReasoning + ReasoningKey + afterReasoning;
    OccursBetween(beforeReasoning, ReasoningKey, afterReasoning);
    OccursBetween(KeysLead + StanceKey + ", " + ReasoningKey + ", and ", ScaleDefinitionsKey, ".");
  }

  const TopicLead := "Topic: "
  const DescriptionLead := "\nDescription: "

  /** `getInitialStanceUserMessage`: the topic's name, then its description on
      a line of its own when it is a non-empty string. */
  function UserMessage(topicName: string, topicDescription: Option<string>): (r: string)
    ensures StartsWith(r, TopicLead + topicName)
    ensures |r| == |TopicLead| + |topicName| <==> !Truthy(topicDescription)
  {
    var head := TopicLead + topicName;
    var r := head + (if Truthy(topicDescription) then DescriptionLead + topicDescription.value else "");
    assert r[..|head|] == head;
    r
  }

  /** A description adds its own line to the message without it; an absent
      or empty description adds nothing. */
  lemma DescriptionAppended(topicName: string, topicDescription: Option<string>)
    ensures Truthy(topicDescription) ==>
      UserMessage(topicName, topicDescription) == UserMessage(topicName, None) + DescriptionLead + topicDescription.value
    ensures !Truthy(topicDescription) ==> UserMessage(topicName, topicDescription) == UserMessage(topicName, None)
    ensures UserMessage(topicName, Some("")) == UserMessage(topicName, None)
  {
    assert UserMessage(topicName, None) == TopicLead + topicName + "";
  }
}
