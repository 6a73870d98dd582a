/** `ragUtils.ts`: retrieval of context from past arguments for the debate
    prompt, and saving of each turn's text to the vector table. The embedding
    model and the vector database are collaborators: what they yield or throw
    is given as parameters. Retrieval answers either one of three sentinel
    texts or a numbered block of at most three truncated snippets; saving
    either creates the table holding the new record or appends the record. */
module RagUtils {
  import opened Wrappers
  import opened Strings

  const NoTableContext := "[No context available yet - " + "this appears to be the first debate on this topic]"
  const NoResultsContext := "[No relevant context found for this topic]"
  const ErrorContext := "[Error retrieving context]"
  const ContextHeader := "Relevant context from past arguments:\n"
  const EntrySeparator := "\n\n"
  const Ellipsis := "..."
  /** `.limit(3)` on the vector search. */
  const SearchLimit := 3
  /** Characters of a record's text kept in its entry. */
  const SnippetLength := 300

  /** One search hit: its `text` when that is a string, and its `_distance`
      when present. */
  datatype SearchRecord = SearchRecord(text: Option<string>, distance: Option<real>)

  // ---------------------------------------------------------------------
  // retrieveRelevantContext

  /** `text.substring(0, 300)` followed by "..." when the text is longer. */
  function Snippet(text: string): (r: string)
    ensures |text| <= SnippetLength ==> r == text
    ensures |text| > SnippetLength ==> |r| == SnippetLength + 3 && r[..SnippetLength] == text[..SnippetLength] && r[SnippetLength..] == Ellipsis
  {
    if |text| > SnippetLength then text[..SnippetLength] + Ellipsis else text
  }

  /** An entry of the block: `[n]`, the similarity when a distance is known,
      then the snippet. `fixed2` is `toFixed(2)`. */
  function FormatEntry(index: nat, rec: SearchRecord, fixed2: real -> string): string {
    var similarity := if rec.distance.Some? then " (similarity: " + fixed2(1.0 - rec.distance.value) + ")" else "";
    "[" + NatToString(index + 1) + "]" + similarity + " " + Snippet(rec.text.GetOr(""))
  }

  /** The entry starts with its one-based number in brackets and ends with
      the snippet of its text (an empty one when the text is not a string). */
  lemma EntryShape(index: nat, rec: SearchRecord, fixed2: real -> string)
    ensures var e := FormatEntry(index, rec, fixed2);
      var tag := "[" + NatToString(index + 1) + "]";
      var snippet := Snippet(rec.text.GetOr(""));
      && StartsWith(e, tag)
      && |snippet| < |e| && e[|e| - |snippet|..] == snippet
      && e[|e| - |snippet| - 1] == ' '
  {
    var tag := "[" + NatToString(index + 1) + "]";
    var similarity := if rec.distance.Some? then " (similarity: " + fixed2(1.0 - rec.distance.value) + ")" else "";
    var snippet := Snippet(rec.text.GetOr(""));
    var e := FormatEntry(index, rec, fixed2);
    assert e == tag + (similarity + " " + snippet);
    assert e == (tag + similarity + " ") + snippet;
  }

  /** The entries in result order. */
  function Entries(results: seq<SearchRecord>, fixed2: real -> string): (r: seq<string>)
    ensures |r| == |results|
    ensures forall k :: 0 <= k < |r| ==> r[k] == FormatEntry(k, results[k], fixed2)
  {
    seq(|results|, k requires 0 <= k < |results| => FormatEntry(k, results[k], fixed2))
  }

  /** The block for a non-empty result list: the header, then the entries
      joined by a blank line. */
  function FormatContext(results: seq<SearchRecord>, fixed2: real -> string): string {
    ContextHeader + Join(Entries(results, fixed2), EntrySeparator)
  }

  /** Entry `k` appears whole in the block at its place after the header,
      followed by a blank line unless it is the last. */
  lemma ContextLayout(results: seq<SearchRecord>, fixed2: real -> string, k: nat)
    requires k < |results|
    ensures var entries := Entries(results, fixed2);
      var text := FormatContext(results, fixed2);
      var at := |ContextHeader| + Offset(entries, EntrySeparator, k);
      && StartsWith(text, ContextHeader)
      && OccursAt(entries[k], text, at)
      && (k + 1 < |results| ==> OccursAt(EntrySeparator, text, at + |entries[k]|))
  {
    var entries := Entries(results, fixed2);
    assert FormatContext(results, fixed2) == ContextHeader + Join(entries, EntrySeparator);
    PrefixedJoinLayout(ContextHeader, entries, EntrySeparator, k);
  }

  /** The three sentinels differ from each other. */
  lemma SentinelsDistinct()
    ensures NoTableContext != NoResultsContext && NoResultsContext != ErrorContext && NoTableContext != ErrorContext
  {
    assert |NoTableContext| == 78 && |NoResultsContext| == 42 && |ErrorContext| == 26;
  }

  /** A block of results is never one of the sentinels: it starts with the
      header's letter where every sentinel starts with a bracket. */
  lemma ContextIsNoSentinel(results: seq<SearchRecord>, fixed2: real -> string)
    ensures var text := FormatContext(results, fixed2);
      text != NoTableContext && text != NoResultsContext && text != ErrorContext
  {
    var text := FormatContext(results, fixed2);
    assert text[0] == ContextHeader[0] == 'R';
    assert NoTableContext[0] == '[' && NoResultsContext[0] == '[' && ErrorContext[0] == '[';
  }

  /** What the vector search yields: the first `SearchLimit` records of the
      topic in the order the store ranks them. */
  function SearchHits(ranked: seq<SearchRecord>): (r: seq<SearchRecord>)
    ensures |r| <= SearchLimit && |r| <= |ranked| && r == ranked[..|r|]
    ensures |r| == if |ranked| < SearchLimit then |ranked| else SearchLimit
  {
    if |ranked| <= SearchLimit then ranked else ranked[..SearchLimit]
  }

  /** Errors thrown by the collaborators: the embedding, `connect` or
      `tableNames`, and opening or iterating the search. */
  datatype RetrieveFaults = RetrieveFaults(embedding: bool, connect: bool, search: bool)

  /** `ranked` is the topic's records in the order the search ranks them for
      the query's embedding; `tableExists` is whether the vector table is
      listed. Any thrown error gives the error sentinel. */
  method RetrieveRelevantContext(tableExists: bool, ranked: seq<SearchRecord>, faults: RetrieveFaults, fixed2: real -> string)
    returns (context: string)
    ensures faults.embedding || faults.connect ==> context == ErrorContext
    ensures !faults.embedding && !faults.connect && !tableExists ==> context == NoTableContext
    ensures !faults.embedding && !faults.connect && tableExists ==>
      context == (if faults.search then ErrorContext
                  else if ranked == [] then NoResultsContext
                  else FormatContext(SearchHits(ranked), fixed2))
  {
    if faults.embedding || faults.connect {
      return ErrorContext;
    }
    if !tableExists {
      return NoTableContext;
    }
    if faults.search {
      return ErrorContext;
    }
    var hits := SearchHits(ranked);
    var results: seq<SearchRecord> := [];
    var i := 0;
    while i < |hits|
      invariant 0 <= i <= |hits|
      invariant results == hits[..i]
    {
      results := results + [hits[i]];
      i := i + 1;
    }
    assert results == hits;
    if |results| > 0 {
      context := FormatContext(results, fixed2);
    } else {
      context := NoResultsContext;
    }
  }

  /** The block holds exactly as many entries as the search yielded, never
      more than three, numbered from one in result order. */
  lemma AtMostThreeEntries(ranked: seq<SearchRecord>, fixed2: real -> string)
    requires ranked != []
    ensures var hits := SearchHits(ranked);
      && 1 <= |Entries(hits, fixed2)| <= SearchLimit
      && forall k :: 0 <= k < |hits| ==> StartsWith(Entries(hits, fixed2)[k], "[" + NatToString(k + 1) + "]")
  {
    var hits := SearchHits(ranked);
    forall k | 0 <= k < |hits| ensures StartsWith(Entries(hits, fixed2)[k], "[" + NatToString(k + 1) + "]") {
      EntryShape(k, hits[k], fixed2);
    }
  }

  // ---------------------------------------------------------------------
  // generateAndSaveEmbedding

  /** The text that is embedded and stored for a turn. */
  function TextToEmbed(userArgument: string, aiResponse: string, reasoning: string): (t: string)
    ensures StartsWith(t, "User argument: " + userArgument + "\nAI response: ")
    ensures OccursAt(aiResponse, t, 29 + |userArgument|)
    ensures |t| == 41 + |userArgument| + |aiResponse| + |reasoning|
    ensures t[|t| - |reasoning| - 12..] == "\nReasoning: " + reasoning
  {
    var head := "User argument: " + userArgument + "\nAI response: ";
    var t := head + aiResponse + ("\nReasoning: " + reasoning);
    assert t[..|head|] == head;
    assert t[|head|..|head| + |aiResponse|] == aiResponse;
    assert t[|t| - |reasoning| - 12..] == "\nReasoning: " + reasoning;
    t
  }

  /** A row of the vector table. */
  datatype VectorRecord = VectorRecord(
    vector: seq<real>,
    text: string,
    argumentId: int,
    debateId: int,
    topicId: int,
    turnNumber: int)

  /** The turn being saved. */
  datatype EmbeddingData = EmbeddingData(
    argumentId: int,
    turnNumber: int,
    userArgumentText: string,
    aiResponseText: string,
    shiftReasoning: string,
    debateId: int,
    topicId: int)

  /** Errors thrown while saving: the embedding, `connect` or `tableNames`,
      `createTable`, and `openTable` or `add`. */
  datatype SaveFaults = SaveFaults(embedding: bool, connect: bool, create: bool, append: bool)

  /** The vector table: whether it exists, and its records in insertion
      order. */
  class VectorStore {
    var tableExists: bool
    var records: seq<VectorRecord>

    /** A table that does not exist holds nothing. */
    ghost predicate Valid()
      reads this
    {
      !tableExists ==> records == []
    }

    constructor ()
      ensures Valid() && !tableExists && records == []
    {
      tableExists := false;
      records := [];
    }

    /** The record saved for a turn. */
    static function RecordFor(input: EmbeddingData, vector: seq<real>): (r: VectorRecord)
      ensures r.text == TextToEmbed(input.userArgumentText, input.aiResponseText, input.shiftReasoning)
      ensures r.vector == vector && r.argumentId == input.argumentId && r.turnNumber == input.turnNumber
      ensures r.debateId == input.debateId && r.topicId == input.topicId
    {
      VectorRecord(vector, TextToEmbed(input.userArgumentText, input.aiResponseText, input.shiftReasoning),
                   input.argumentId, input.debateId, input.topicId, input.turnNumber)
    }

    /** `generateAndSaveEmbedding`: creates the table holding the record when
        it is missing, appends the record otherwise, and swallows every
        error, leaving the table as it was. `vector` is the embedding of the
        turn's text. */
    method SaveEmbedding(input: EmbeddingData, vector: seq<real>, faults: SaveFaults)
      requires Valid()
      modifies this
      ensures Valid()
      ensures var saved := !faults.embedding && !faults.connect && (if old(tableExists) then !faults.append else !faults.create);
        && (saved ==> tableExists && records == old(records) + [RecordFor(input, vector)])
        && (!saved ==> tableExists == old(tableExists) && records == old(records))
    {
      if faults.embedding || faults.connect {
        return;
      }
      var rec := RecordFor(input, vector);
      if !tableExists {
        if faults.create {
          return;
        }
        tableExists := true;
        records := [rec];
        return;
      }
      if faults.append {
        return;
      }
      records := records + [rec];
    }
  }
}
