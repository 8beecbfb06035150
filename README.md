# spring-ai-rag, modelled in Dafny

This project models the core of a Spring AI demo application. The
application has two services:

- A retrieval-augmented question answerer (`RagService.processQuery`). It
  embeds the question and fetches the three most similar earlier exchanges
  from table `chat_history`. It puts them in front of the question as
  context and asks the chat model. Then it stores the new exchange, keyed
  by the question's embedding, and returns the answer. Any exception along
  the way becomes an error text returned in place of the answer.
- A writer/editor loop (`BlogWriterService.generateBlogPost`). It asks for
  a first draft, then runs at most three rounds. In each round the draft
  is evaluated, and unless the evaluation contains `PASS` in any letter
  case, the draft is rewritten with the feedback extracted from the
  evaluation.

The model also covers the store (`ChatHistoryRepository`) and the bean
(`ChatHistory`):

- the row mapper, which parses the vector text back into numbers;
- `save`, as an append of one row that is then read back through the row
  mapper;
- `findNearestNeighbors`, as a full scan followed by an in-memory pipeline:
  filter out null embeddings, stable sort by descending similarity, keep
  the first k;
- the bean's constructors, setters and vector serialiser
  `getEmbeddingAsString`.

Modules, one per file:

- `Outcomes`: `Option` for Java's null, and `Result` for a call that either
  returns or throws (the failure carries the exception's message).
- `Text`: the `java.lang.String` operations the core uses, over
  `seq<char>`.
- `Model`: `Embedding` (a `double[]`, as `seq<real>`), `Record` (the field
  values of a `ChatHistory`), the vector text, and the `ChatHistory` class.
- `Clients`: the chat client and the embedding service as oracle classes.
  Call number i is answered by the i-th canned outcome, and every request
  is logged.
- `Repository`: the row mapper (a loop over the pieces, proved against
  `MapAll`), the vector round trip, the ranking pipeline and its
  properties, and the `ChatHistoryRepository` class. The class holds the
  table as a sequence of rows, a statement counter, and scheduled faults
  per statement.
- `BlogWriter`: the prompts, the approval test, feedback extraction, the
  loop as a recursive function `Loop`, the run as `BlogRun`, and the
  `BlogWriterService` class whose `GenerateBlogPost` is a `while` loop
  proved to do what `BlogRun` says.
- `Rag`: the context, the prompt, the error text, one query as the staged
  function `Process`, and the `RagService` class whose `ProcessQuery` is
  proved to return and leave behind what `Process` says.

Two behaviours of the code are worth knowing:

- Feedback keeps the colon. The feedback is everything after the marker,
  trimmed, and `trim` removes only characters at or below U+0020, never
  `:`. So for `NEEDS_IMPROVEMENT: make it shorter` the feedback is
  `: make it shorter` (`BlogWriter.FeedbackKeepsColon`).
- A failed save returns the error text instead of the answer, because
  `save` runs inside the same `try` as the chat call (`Rag.ProcessAnswer`).

`ProcessQuery` is proved in three methods: `ProcessQuery` up to the search,
`Answer` for the chat call, and `SaveExchange` for the save. Each is proved
against its own stage of `Process`.

The prompt texts are held as data (`BlogWriter.Protocol`, `Rag.QueryTemplate`);
`SOURCE_PROTOCOL` and `SOURCE_TEMPLATE` hold the source's texts, with
`String.format`'s text-block indentation stripping written out by hand.
`Rag.Setup` holds the store's search and row mapper as function values, and
`Rag.RagService.Fixed` ties them to `Retrieve` with k = 3 and to
`RowToRecord`.

## Model

| member | source | states |
|---|---|---|
| Text.ToUpper | src/main/java/com/example/springaiapp/service/BlogWriterService.java:58 | `toUpperCase` keeps the length, so an index into the upper-cased text is an index into the original; no lower-case ASCII letter is left, and every character that is not one stays as it was |
| Text.ToUpperIdempotent | src/main/java/com/example/springaiapp/service/BlogWriterService.java:58 | upper-casing an upper-cased text changes nothing |
| Text.ToUpperIgnoresCase | src/main/java/com/example/springaiapp/service/BlogWriterService.java:58 | texts that differ only in the letter case of their characters upper-case alike, which is what makes the `PASS` and `NEEDS_IMPROVEMENT` searches case-insensitive |
| Text.IndexOf | src/main/java/com/example/springaiapp/service/BlogWriterService.java:94 | `indexOf` is -1 exactly when the pattern occurs nowhere, and otherwise the first index at which it occurs |
| Text.Contains | src/main/java/com/example/springaiapp/service/BlogWriterService.java:58 | `contains` holds exactly when the pattern occurs at some index |
| Text.Trim | src/main/java/com/example/springaiapp/service/BlogWriterService.java:97 | `trim` gives a string that neither starts nor ends with a character at or below U+0020, and leaves such a string unchanged; what it cuts is stated by Text.TrimCuts |
| Text.TrimCuts | src/main/java/com/example/springaiapp/service/BlogWriterService.java:97 | the trimmed string is a slice of the original, and every character cut off before or after that slice is at or below U+0020 |
| Text.RemoveChar | src/main/java/com/example/springaiapp/repository/ChatHistoryRepository.java:23-24 | `replace("[", "")` leaves no occurrence of the character and adds no character |
| Text.Split | src/main/java/com/example/springaiapp/repository/ChatHistoryRepository.java:25 | `split(",")` of a text without a comma is that text alone, and no piece contains a comma |
| Text.SplitJoin | src/main/java/com/example/springaiapp/repository/ChatHistoryRepository.java:25 | the raw split (every piece, trailing empty ones kept) undoes joining pieces that do not contain the separator; what holds of `split(",")` itself, which drops trailing empty pieces, is stated by Repository.SplitTokens |
| Text.JoinSplit | src/main/java/com/example/springaiapp/repository/ChatHistoryRepository.java:25 | joining the pieces of the raw split (every piece, trailing empty ones kept) with the separator gives the text back; `split(",")` itself is covered by Repository.SplitTokens |
| Text.Join | src/main/java/com/example/springaiapp/service/RagService.java:86 | definition of `Collectors.joining(sep)` and `String.join(sep, ...)`; stated by Text.SplitJoin, Text.JoinSplit and Rag.ContextSnoc |
| Model.Serialize | src/main/java/com/example/springaiapp/model/ChatHistory.java:54-56 | definition of the vector text: `[`, the printed numbers joined by `,`, then `]`; its inverse is stated by Repository.SerializeRoundTrip, its commas by Model.SerializeCommas |
| Model.SerializeEmpty | src/main/java/com/example/springaiapp/model/ChatHistory.java:54-56 | an empty embedding prints as `[]` |
| Model.SerializeCommas | src/main/java/com/example/springaiapp/model/ChatHistory.java:54-56 | n >= 1 numbers whose printed forms have no comma give exactly n - 1 commas |
| Model.ChatHistory.Empty | src/main/java/com/example/springaiapp/model/ChatHistory.java:20 | the no-argument constructor leaves every field null |
| Model.ChatHistory.constructor | src/main/java/com/example/springaiapp/model/ChatHistory.java:22-26 | the three-argument constructor sets prompt, response and embedding, and leaves the id null |
| Model.ChatHistory.WithId | src/main/java/com/example/springaiapp/model/ChatHistory.java:29-34 | the four-argument constructor sets all four fields |
| Model.ChatHistory.SetId | src/main/java/com/example/springaiapp/model/ChatHistory.java:37 | the setter changes the id and no other field |
| Model.ChatHistory.SetPrompt | src/main/java/com/example/springaiapp/model/ChatHistory.java:40 | the setter changes the prompt and no other field |
| Model.ChatHistory.SetResponse | src/main/java/com/example/springaiapp/model/ChatHistory.java:43 | the setter changes the response and no other field |
| Model.ChatHistory.SetEmbedding | src/main/java/com/example/springaiapp/model/ChatHistory.java:46 | the setter changes the embedding and no other field |
| Model.ChatHistory.GetEmbeddingAsString | src/main/java/com/example/springaiapp/model/ChatHistory.java:52-57 | definition: null for a null embedding, otherwise the vector text; that the text reads back as the embedding is stated by Repository.EmbeddingTextRoundTrip |
| Clients.ReplyAt | src/main/java/com/example/springaiapp/service/BlogWriterService.java:30 | definition of the oracle: call number i gets the i-th canned outcome, a call past them fails; how a call uses it is stated by Clients.ChatClient.Call and Clients.EmbeddingClient.Embed |
| Clients.ChatClient.Call | src/main/java/com/example/springaiapp/service/RagService.java:111-112 | a call logs its prompt and returns the outcome for its position in the log |
| Clients.EmbeddingClient.Embed | src/main/java/com/example/springaiapp/service/RagService.java:75 | a request logs its text and returns the outcome for its position in the log |
| Repository.MapAllOutcome | src/main/java/com/example/springaiapp/repository/ChatHistoryRepository.java:27-29 | a left-to-right pass succeeds exactly when every element succeeds, with their values in order; otherwise it fails with the failure of the first element that fails |
| Repository.MapAllValues | src/main/java/com/example/springaiapp/repository/ChatHistoryRepository.java:27-29 | when every element succeeds, the pass collects exactly their values |
| Repository.MapAllPrefixFailure | src/main/java/com/example/springaiapp/repository/ChatHistoryRepository.java:27-29 | once a prefix fails, the whole pass fails the same way (the exception ends the loop) |
| Repository.MapAllStep | src/main/java/com/example/springaiapp/repository/ChatHistoryRepository.java:27-29 | one more element either fails the whole pass or extends the values so far |
| Repository.ReadNumber | src/main/java/com/example/springaiapp/repository/ChatHistoryRepository.java:28 | definition of `parseDouble` on one piece: the number read, or a `NumberFormatException` naming the piece (`empty String` for an empty one); stated piece by piece by Repository.ParseEmbeddingOutcome |
| Repository.Unbracket | src/main/java/com/example/springaiapp/repository/ChatHistoryRepository.java:22-24 | the text left after the two `replace` calls holds no bracket |
| Repository.Pieces | src/main/java/com/example/springaiapp/repository/ChatHistoryRepository.java:22-28 | definition of the pieces handed to `parseDouble`: the unbracketed text split on `,`, each trimmed; what they are is stated by Repository.PiecesOfSerialize, Repository.BracketsIgnored and Repository.EmptyEmbeddingFails |
| Repository.ParseEmbeddingOutcome | src/main/java/com/example/springaiapp/repository/ChatHistoryRepository.java:18-30 | a null column gives a null embedding; otherwise the parse succeeds exactly when every piece reads as a number, giving one number per piece in order; the failing case is stated by Repository.ParseEmbeddingFailure |
| Repository.ReadAllFailure | src/main/java/com/example/springaiapp/repository/ChatHistoryRepository.java:26-29 | reading a sequence of pieces fails with the exception of the first piece that does not read, every piece before it having read |
| Repository.ParseEmbeddingFailure | src/main/java/com/example/springaiapp/repository/ChatHistoryRepository.java:18-30 | a column that does not parse fails with the exception of the first piece that does not read as a number |
| Repository.MapAll | src/main/java/com/example/springaiapp/repository/ChatHistoryRepository.java:27-29 | definition of a left-to-right pass that stops at the first exception; stated by Repository.MapAllOutcome |
| Repository.ParseEmbedding | src/main/java/com/example/springaiapp/repository/ChatHistoryRepository.java:18-30 | definition of the embedding column as the row mapper reads it; stated by Repository.ParseEmbeddingOutcome and Repository.SerializeRoundTrip |
| Repository.RowToRecord | src/main/java/com/example/springaiapp/repository/ChatHistoryRepository.java:17-38 | definition of the row mapper: the row's id, prompt and response with the parsed embedding, or the parse's exception; that a saved row maps back is stated by Repository.SavedRowReadsBack and Rag.ProcessRoundTrip |
| Repository.ParseVector | src/main/java/com/example/springaiapp/repository/ChatHistoryRepository.java:22-29 | the array-filling loop returns what the left-to-right pass over the pieces gives |
| Repository.MapRow | src/main/java/com/example/springaiapp/repository/ChatHistoryRepository.java:17-38 | the row mapper as code returns what `RowToRecord` specifies |
| Repository.UnbracketJoin | src/main/java/com/example/springaiapp/repository/ChatHistoryRepository.java:22-24 | removing the brackets from a bracketed join of bracket-free numbers leaves the join |
| Repository.SplitTokens | src/main/java/com/example/springaiapp/repository/ChatHistoryRepository.java:25 | splitting a comma join of non-empty, comma-free numbers gives the numbers back |
| Repository.PiecesOfSerialize | src/main/java/com/example/springaiapp/repository/ChatHistoryRepository.java:22-28 | the pieces of a non-empty embedding's vector text are its printed numbers |
| Repository.SerializeRoundTrip | src/main/java/com/example/springaiapp/repository/ChatHistoryRepository.java:18-30 | the row mapper reads back exactly the non-empty embedding that `getEmbeddingAsString` printed, when each number prints as a token that reads back as itself |
| Repository.EmbeddingTextRoundTrip | src/main/java/com/example/springaiapp/model/ChatHistory.java:52-57 | the text `getEmbeddingAsString` writes reads back through the row mapper as the bean's embedding: null as null, and a non-empty embedding whose numbers print and read back exactly as itself |
| Repository.SavedRowReadsBack | src/main/java/com/example/springaiapp/repository/ChatHistoryRepository.java:47-59 | the row `save` inserts for a bean maps back to the bean's own fields with the new id |
| Repository.EmptyEmbeddingFails | src/main/java/com/example/springaiapp/repository/ChatHistoryRepository.java:25-28 | an empty embedding does not round-trip: `[]` splits into the one piece `""`, on which `parseDouble` throws `empty String` |
| Repository.BracketsIgnored | src/main/java/com/example/springaiapp/repository/ChatHistoryRepository.java:22-24 | a bracket anywhere in the column is ignored, not only the outer ones |
| Repository.WithEmbedding | src/main/java/com/example/springaiapp/repository/ChatHistoryRepository.java:76 | no record left by the filter has a null embedding |
| Repository.WithEmbeddingCounts | src/main/java/com/example/springaiapp/repository/ChatHistoryRepository.java:76 | the filter keeps every record with an embedding as often as it occurs, and drops every other |
| Repository.Insert | src/main/java/com/example/springaiapp/repository/ChatHistoryRepository.java:77-79 | one insertion step of the sort adds exactly the inserted element |
| Repository.InsertSorted | src/main/java/com/example/springaiapp/repository/ChatHistoryRepository.java:77-79 | inserting into a descending sequence keeps it descending |
| Repository.SortDesc | src/main/java/com/example/springaiapp/repository/ChatHistoryRepository.java:77-79 | the sort under the reversed comparator is a permutation of its input, in descending score order |
| Repository.KeyFilterAppend | src/main/java/com/example/springaiapp/repository/ChatHistoryRepository.java:77-79 | the elements of one score in a concatenation are those of each part, in order |
| Repository.InsertKeyFilter | src/main/java/com/example/springaiapp/repository/ChatHistoryRepository.java:77-79 | an inserted element goes before every element of equal score |
| Repository.SortStable | src/main/java/com/example/springaiapp/repository/ChatHistoryRepository.java:77-79 | the sort is stable: for every score, the elements having it keep their input order |
| Repository.Take | src/main/java/com/example/springaiapp/repository/ChatHistoryRepository.java:80 | definition of `limit(k)`: the first k elements, or all when there are fewer; stated by Repository.TakeIncluded and Repository.TopKSize |
| Repository.TopKSize | src/main/java/com/example/springaiapp/repository/ChatHistoryRepository.java:75-81 | at most k results, exactly min(k, number of records with an embedding), and none without an embedding |
| Repository.TopKOrdered | src/main/java/com/example/springaiapp/repository/ChatHistoryRepository.java:77-80 | the results are in descending score order, highest first |
| Repository.TopKFromScan | src/main/java/com/example/springaiapp/repository/ChatHistoryRepository.java:75-81 | every result comes from the scan, no more often than it occurs there |
| Repository.TakeIncluded | src/main/java/com/example/springaiapp/repository/ChatHistoryRepository.java:80 | `limit` keeps a sub-multiset of its input |
| Repository.WithEmbeddingIncluded | src/main/java/com/example/springaiapp/repository/ChatHistoryRepository.java:76 | the filter keeps a sub-multiset of its input |
| Repository.TopKStable | src/main/java/com/example/springaiapp/repository/ChatHistoryRepository.java:75-81 | results of equal score keep their scan order: they are the first candidates having that score |
| Repository.TopKBest | src/main/java/com/example/springaiapp/repository/ChatHistoryRepository.java:75-81 | every candidate left out scores no higher than every result |
| Repository.TopKAll | src/main/java/com/example/springaiapp/repository/ChatHistoryRepository.java:75-81 | with at most k candidates, every one of them is returned |
| Repository.TopK | src/main/java/com/example/springaiapp/repository/ChatHistoryRepository.java:75-81 | definition of the stream pipeline: filter, stable descending sort, limit; stated by Repository.TopKSize, TopKOrdered, TopKFromScan, TopKStable, TopKBest and TopKAll |
| Repository.Score | src/main/java/com/example/springaiapp/repository/ChatHistoryRepository.java:77-79 | definition of the score the comparator compares: the similarity of a record's embedding to the query; the similarity itself is a parameter |
| Repository.Retrieve | src/main/java/com/example/springaiapp/repository/ChatHistoryRepository.java:71-81 | definition of `findNearestNeighbors` after its statement: every row through the row mapper, the first failure thrown, then `TopK`; Repository.ChatHistoryRepository.FindNearestNeighbors is proved against it |
| Repository.ChatHistoryRepository.constructor | src/main/java/com/example/springaiapp/repository/ChatHistoryRepository.java:40-42 | the repository starts over the given table, with no statement run yet |
| Repository.ChatHistoryRepository.Save | src/main/java/com/example/springaiapp/repository/ChatHistoryRepository.java:47-59 | one statement; a fault leaves the table as it was and is thrown; otherwise one row is appended, with the next id, the bean's prompt and response and its vector text, and the result is that row through the row mapper |
| Repository.ChatHistoryRepository.FindNearestNeighbors | src/main/java/com/example/springaiapp/repository/ChatHistoryRepository.java:69-82 | one statement; a fault is thrown; otherwise every row goes through the row mapper (the first failure is thrown), then filter, stable descending sort and limit, as `Retrieve` says; the table is unchanged |
| BlogWriter.Approves | src/main/java/com/example/springaiapp/service/BlogWriterService.java:58 | an evaluation approves exactly when `PASS` occurs anywhere in it, in any letter case |
| BlogWriter.ExtractFeedback | src/main/java/com/example/springaiapp/service/BlogWriterService.java:92-100 | null gives the empty text; an evaluation without `NEEDS_IMPROVEMENT` (in any case) is returned unchanged; otherwise the feedback is the text after the first marker, trimmed |
| BlogWriter.FeedbackKeepsColon | src/main/java/com/example/springaiapp/service/BlogWriterService.java:97 | the feedback of `NEEDS_IMPROVEMENT: make it shorter` is `: make it shorter` |
| BlogWriter.LowerCaseMarkerFeedback | src/main/java/com/example/springaiapp/service/BlogWriterService.java:94-97 | a marker in lower case is found too, and the rest of the evaluation, trimmed, is the feedback |
| BlogWriter.PassInsideAWordApproves | src/main/java/com/example/springaiapp/service/BlogWriterService.java:58 | an evaluation asking for improvement but containing the word `passage` approves the draft |
| BlogWriter.InitialPrompt | src/main/java/com/example/springaiapp/service/BlogWriterService.java:24-28 | definition of the writer's first prompt: the topic between the fixed texts of the protocol |
| BlogWriter.EvaluationPrompt | src/main/java/com/example/springaiapp/service/BlogWriterService.java:40-53 | definition of the editor's prompt: the draft between the fixed texts of the protocol |
| BlogWriter.RefinementPrompt | src/main/java/com/example/springaiapp/service/BlogWriterService.java:67-76 | definition of the revision prompt: the feedback, then the draft, between the fixed texts of the protocol |
| BlogWriter.Round | src/main/java/com/example/springaiapp/service/BlogWriterService.java:40-81 | one round sends the evaluation prompt of the current draft; on approval it keeps the draft after one call; otherwise it sends the refinement prompt with the extracted feedback and takes the reply as the new draft; a failing call ends it with that failure |
| BlogWriter.LoopFails | src/main/java/com/example/springaiapp/service/BlogWriterService.java:38-83 | a failing round ends the loop with its failure |
| BlogWriter.LoopGoesOn | src/main/java/com/example/springaiapp/service/BlogWriterService.java:38-83 | any other round hands the next iteration its draft and verdict |
| BlogWriter.Loop | src/main/java/com/example/springaiapp/service/BlogWriterService.java:38-83 | definition of the `while` loop, one `Round` per iteration; stated by BlogWriter.LoopLog, LoopCalls, LoopEnd and LoopTranscript |
| BlogWriter.LoopLog | src/main/java/com/example/springaiapp/service/BlogWriterService.java:38-83 | the loop keeps the earlier log, makes at least one call when it runs a round, and at most two per remaining round |
| BlogWriter.LoopCalls | src/main/java/com/example/springaiapp/service/BlogWriterService.java:38-83 | every call of the loop but the last was answered, every evaluation but possibly the last did not approve, and a failing loop ends with the failure of its last call |
| BlogWriter.LoopEnd | src/main/java/com/example/springaiapp/service/BlogWriterService.java:38-89 | a loop that does not fail had every call answered, and stops either on an approving evaluation, keeping the draft it evaluated, or after its last round with the latest draft |
| BlogWriter.LoopPromptShift | src/main/java/com/example/springaiapp/service/BlogWriterService.java:38-83 | after a round that refined the draft, the later prompts are those of a loop entered with the refined draft |
| BlogWriter.LoopTranscript | src/main/java/com/example/springaiapp/service/BlogWriterService.java:38-83 | the loop's prompts alternate: an evaluation of the current draft, then a refinement carrying the feedback of the evaluation before it |
| BlogWriter.BlogRun | src/main/java/com/example/springaiapp/service/BlogWriterService.java:20-90 | definition of a whole run: the first draft, then `Loop`; stated by BlogWriter.BlogRunCalls, BlogRunResult, BlogRunRejections, BlogRunStops, BlogRunTranscript, FirstDraftApproved and EditorNeverApproves, and BlogWriter.BlogWriterService.GenerateBlogPost is proved against it |
| BlogWriter.BlogRunCalls | src/main/java/com/example/springaiapp/service/BlogWriterService.java:20-90 | a run first sends the writer's prompt with the topic, then makes at most 2 * MAX_ITERATIONS more calls; every call but the last was answered; a failing run ends with the failure of its last call; a run that returns a draft made at least one evaluation |
| BlogWriter.BlogRunResult | src/main/java/com/example/springaiapp/service/BlogWriterService.java:20-90 | a run that returns a draft had every call answered and returns the reply to its last writer call |
| BlogWriter.BlogRunRejections | src/main/java/com/example/springaiapp/service/BlogWriterService.java:38-61 | the loop goes on only without approval: every evaluation before the last was answered and did not approve |
| BlogWriter.BlogRunStops | src/main/java/com/example/springaiapp/service/BlogWriterService.java:38-59 | a run that returns a draft stopped either on an approving evaluation or after all MAX_ITERATIONS rounds |
| BlogWriter.BlogRunTranscript | src/main/java/com/example/springaiapp/service/BlogWriterService.java:20-83 | after the writer's first prompt, the prompts alternate between evaluation and refinement, starting from the first draft |
| BlogWriter.FirstDraftApproved | src/main/java/com/example/springaiapp/service/BlogWriterService.java:30-60 | when the first evaluation approves, the run makes exactly two calls and returns the first draft |
| BlogWriter.EditorNeverApproves | src/main/java/com/example/springaiapp/service/BlogWriterService.java:38-89 | when no evaluation approves, the run makes 1 + 2 * MAX_ITERATIONS calls and returns the last refinement |
| BlogWriter.BlogWriterService.constructor | src/main/java/com/example/springaiapp/service/BlogWriterService.java:16-18 | the service holds the given chat client and the source's prompt texts |
| BlogWriter.BlogWriterService.GenerateBlogPost | src/main/java/com/example/springaiapp/service/BlogWriterService.java:20-90 | the loop returns what `BlogRun` says, and leaves the client's log as `BlogRun` says |
| BlogWriter.BlogWriterService.RunRound | src/main/java/com/example/springaiapp/service/BlogWriterService.java:40-81 | the loop body does what `Round` says |
| Rag.Show | src/main/java/com/example/springaiapp/service/RagService.java:85 | definition of `%s` on a string that may be null: the string, or `null`; stated within an entry by Rag.EntryFields |
| Rag.Entries | src/main/java/com/example/springaiapp/service/RagService.java:84-85 | definition: the entry of each retrieved exchange, in retrieval order; stated by Rag.ContextOfFew and Rag.ContextSnoc |
| Rag.Entry | src/main/java/com/example/springaiapp/service/RagService.java:85 | definition of one exchange in the context, `Q: <prompt>`, line break, `A: <response>`; stated by Rag.EntryFields |
| Rag.BuildContext | src/main/java/com/example/springaiapp/service/RagService.java:84-86 | definition of the context: the entries joined by a blank line; stated by Rag.ContextOfFew and Rag.ContextSnoc |
| Rag.ComposePrompt | src/main/java/com/example/springaiapp/service/RagService.java:90-101 | definition of the user message around the context and the question; stated by Rag.ContextBeforeQuery |
| Rag.ErrorText | src/main/java/com/example/springaiapp/service/RagService.java:124-129 | definition of the text returned instead of the answer; stated by Rag.ErrorTextShape |
| Rag.EntryFields | src/main/java/com/example/springaiapp/service/RagService.java:85 | an entry is `Q: `, the prompt, a line break and `A: `, then the response, each at a fixed place |
| Rag.ContextOfFew | src/main/java/com/example/springaiapp/service/RagService.java:84-86 | no exchanges give the empty context, and one exchange gives its entry alone |
| Rag.ContextSnoc | src/main/java/com/example/springaiapp/service/RagService.java:84-86 | one more exchange appends a blank line and its entry, so the context keeps the retrieval order |
| Rag.ContextBeforeQuery | src/main/java/com/example/springaiapp/service/RagService.java:90-101 | the user message holds the context and then the question, each in one piece at a fixed place |
| Rag.ErrorTextShape | src/main/java/com/example/springaiapp/service/RagService.java:124-129 | every error text starts with `Error processing query.` and ends with the exception's message |
| Rag.Process | src/main/java/com/example/springaiapp/service/RagService.java:69-132 | definition of one query: embed the question, then the later stages; stated by Rag.ProcessCalls, ProcessStore, ProcessAnswer and ProcessRoundTrip, and Rag.RagService.ProcessQuery is proved against it |
| Rag.AfterEmbedding | src/main/java/com/example/springaiapp/service/RagService.java:78-81 | definition of the search stage, as one statement |
| Rag.AfterSearch | src/main/java/com/example/springaiapp/service/RagService.java:84-112 | definition of the chat stage: the prompt with the context and the question, then the call |
| Rag.AfterAnswer | src/main/java/com/example/springaiapp/service/RagService.java:115-120 | definition of the save stage: one statement that appends the row, then the mapping of the returned row |
| Rag.QueryPrompt | src/main/java/com/example/springaiapp/service/RagService.java:105-111 | definition of the prompt sent to the chat model: the fixed system message, then the user message made of the context and the question; stated by Rag.ProcessCalls and Rag.ContextBeforeQuery |
| Rag.SavedRow | src/main/java/com/example/springaiapp/service/RagService.java:117 | definition of the row `save` inserts for the new exchange: the id one past the number of rows, the question, the answer and the question's embedding as vector text; stated by Rag.ProcessStore and Rag.ProcessRoundTrip |
| Rag.ProcessCalls | src/main/java/com/example/springaiapp/service/RagService.java:69-120 | a query asks the embedding service once, for the question itself, runs at most two statements, and asks the chat model at most once: only after the search with the question's embedding succeeded, with the system message and the question behind the exchanges found |
| Rag.ProcessStore | src/main/java/com/example/springaiapp/service/RagService.java:111-117 | the table changes only by one row appended after the chat model answered, holding the question, that answer and the question's embedding |
| Rag.ProcessAnswer | src/main/java/com/example/springaiapp/service/RagService.java:69-132 | when every step succeeds, the result is the chat model's answer; otherwise it is the error text with the message of the first step that failed: the embedding, the search, the chat call, the save statement or the mapping of the saved row |
| Rag.ProcessRoundTrip | src/main/java/com/example/springaiapp/service/RagService.java:69-132 | with the real row mapper and an embedding that prints and reads back, a query whose calls and statements succeed returns the answer, and the new row reads back as the question, the answer and the very embedding stored |
| Rag.RagService.constructor | src/main/java/com/example/springaiapp/service/RagService.java:54-61 | the service holds the given clients, repository and deployment names, and the source's prompt texts |
| Rag.RagService.ProcessQuery | src/main/java/com/example/springaiapp/service/RagService.java:69-132 | the answer and the state of the clients and the store afterwards are those of `Process`, with the search fixed to `findNearestNeighbors` with k = 3 and the row mapper |
| Rag.RagService.Answer | src/main/java/com/example/springaiapp/service/RagService.java:84-120 | the steps after the search (context, prompt, chat call, save) do what `AfterSearch` says |
| Rag.RagService.SaveExchange | src/main/java/com/example/springaiapp/service/RagService.java:117-120 | the save and the return do what `AfterAnswer` says |

## Left out

- Cosine similarity is a parameter of the repository, `(Embedding, Embedding) -> real`. Its arithmetic, its `NaN` for a zero norm, the order `Double.compare` gives `NaN`, and dimension mismatches are not modelled. The ranking properties hold for any similarity.
- `String.valueOf(double)` and `Double.parseDouble` are an abstract pair, `NumberText`. The round trip requires that each number prints as a token that reads back as itself.
- SQL and the database are modelled as a table of rows; ids are assigned as `|table| + 1`. pgvector's own text form of the column is taken to be the text `getEmbeddingAsString` wrote. Concurrency is left out.
- `EmbeddingService.generateEmbedding` is an oracle. The message it wraps errors in (`Failed to generate embedding: ...`) is part of the oracle's failure message.
- The model clients, Spring wiring, `@Value` configuration, logging and the shell commands are left out. The deployment names are constructor parameters.
- Text.ToUpper: upper-cases ASCII letters only. `toUpperCase` also maps other letters, and it can change the length (for example `ß` becomes `SS`).
- Repository.ChatHistoryRepository.FindNearestNeighbors: k is a `nat`. A negative `int` would make `Stream.limit` throw, and the only caller passes 3.
- Clients.ChatClient.Call: a reply is always non-null text. Null content, and exceptions whose message is null, are not modelled.
- Clients.ReplyAt: a call beyond the canned outcomes fails with `no reply`, which stands for any failure of the service.
- Model.ChatHistory.SetEmbedding: the embedding is a value, so the aliasing of the `double[]` passed to the setter or constructor is not modelled.
- The getters are the class's fields and have no members of their own.
