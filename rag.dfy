/** Retrieval-augmented answering (`service/RagService.java`): embed the
    question, fetch the three most similar earlier exchanges, put them in
    front of the question as context, ask the chat model, store the new
    exchange and return the answer. Any exception along the way becomes an
    error text instead of the answer. */
module Rag {
  import opened Outcomes
  import opened Text
  import opened Model
  import opened Clients
  import opened Repository

  /** How many earlier exchanges are fetched as context. */
  const NEIGHBOURS: nat := 3

  // ---------------------------------------------------------------------
  // Context and prompt
  // ---------------------------------------------------------------------

  /** `%s` of a string that may be null. */
  function Show(s: Option<string>): string
  {
    if s.Some? then s.value else "null"
  }

  /** One earlier exchange as the context shows it: `Q: <prompt>`, a line
      break, `A: <response>`. */
  function Entry(r: Record): string {
    "Q: " + Show(r.prompt) + "\nA: " + Show(r.response)
  }

  /** The entries of the exchanges, in retrieval order. */
  function Entries(rs: seq<Record>): seq<string>
  {
    seq(|rs|, i requires 0 <= i < |rs| => Entry(rs[i]))
  }

  /** The context block: the entries joined by a blank line. */
  function BuildContext(rs: seq<Record>): string {
    Join("\n\n", Entries(rs))
  }

  /** The prompt and the response of an exchange sit at fixed places in its
      entry, so each can be read back from it. */
  lemma EntryFields(r: Record)
    ensures var e := Entry(r); var p := Show(r.prompt);
      |e| == 7 + |p| + |Show(r.response)| &&
      e[..3] == "Q: " && e[3..3 + |p|] == p &&
      e[3 + |p|..7 + |p|] == "\nA: " && e[7 + |p|..] == Show(r.response)
  {
  }

  /** No exchanges give an empty context, one gives its entry alone. */
  lemma ContextOfFew(rs: seq<Record>)
    requires |rs| <= 1
    ensures rs == [] ==> BuildContext(rs) == ""
    ensures |rs| == 1 ==> BuildContext(rs) == Entry(rs[0])
  {
  }

  /** One more exchange adds a blank line and its entry at the end, so the
      context keeps the retrieval order. */
  lemma ContextSnoc(rs: seq<Record>, r: Record)
    requires rs != []
    ensures BuildContext(rs + [r]) == BuildContext(rs) + "\n\n" + Entry(r)
  {
    assert Entries(rs + [r]) == Entries(rs) + [Entry(r)];
    JoinSnoc("\n\n", Entries(rs), Entry(r));
  }

  /** The fixed texts of the question prompt: the system message, and the
      user message's text before the context, between the context and the
      question, and after the question. */
  datatype QueryTemplate = QueryTemplate(system: string, head: string, middle: string, tail: string)

  const SOURCE_TEMPLATE := QueryTemplate(
    "You are a helpful AI assistant that provides clear and educational responses.",
    "Use these previous Q&A pairs as context for answering the new question:\n\nPrevious interactions:\n",
    "\n\nNew question: ",
    "\n\nPlease provide a clear and educational response.")

  /** The user message around the context and the question. */
  function ComposePrompt(t: QueryTemplate, context: string, query: string): string {
    t.head + context + t.middle + query + t.tail
  }

  /** The context comes first and the question after it, each in one piece
      at a place fixed by the lengths of what precedes it. */
  lemma ContextBeforeQuery(t: QueryTemplate, context: string, query: string)
    ensures var p := ComposePrompt(t, context, query);
      var q := |t.head| + |context| + |t.middle|;
      |p| == q + |query| + |t.tail| &&
      p[|t.head|..|t.head| + |context|] == context &&
      p[q..q + |query|] == query
  {
    var p := ComposePrompt(t, context, query);
    assert p == t.head + context + t.middle + query + t.tail;
  }

  /** The chat prompt for a question with the retrieved exchanges. */
  function QueryPrompt(t: QueryTemplate, near: seq<Record>, query: string): Prompt {
    Prompt(Some(t.system), ComposePrompt(t, BuildContext(near), query))
  }

  // ---------------------------------------------------------------------
  // Error text
  // ---------------------------------------------------------------------

  const ERROR_PREFIX := "Error processing query."

  /** The text returned instead of the answer: the two deployment names,
      then the exception's message. */
  function ErrorText(chatName: string, embeddingName: string, message: string): string {
    ERROR_PREFIX + " Deployment info - Chat: " + chatName + ", Embedding: " + embeddingName + ". Error: " + message
  }

  /** Every error text starts with `Error processing query.` and ends with
      the message of the exception. */
  lemma ErrorTextShape(chatName: string, embeddingName: string, message: string)
    ensures var e := ErrorText(chatName, embeddingName, message);
      |e| >= |ERROR_PREFIX| + |message| &&
      e[..|ERROR_PREFIX|] == ERROR_PREFIX && e[|e| - |message|..] == message
  {
  }

  // ---------------------------------------------------------------------
  // One query
  // ---------------------------------------------------------------------

  /** What stays fixed while the service runs: its deployment names and
      prompt texts, the canned outcomes of the embedding and chat calls,
      the store's scheduled faults and number format, and how the store
      answers a search of its table (`findNearestNeighbors` with k = 3)
      and maps a row back to a record. The service holds the store's
      behaviour as data, so that reasoning about one query never has to
      take the search or the row mapper apart; `RagService.Fixed` fills it
      in with `Retrieve` and `RowToRecord`. */
  datatype Setup = Setup(
    chatName: string, embeddingName: string, template: QueryTemplate,
    chatReplies: seq<Result<string>>, embeddings: seq<Result<Embedding>>,
    faults: seq<Option<string>>, numbers: NumberText,
    search: (seq<Row>, Embedding) -> Result<seq<Record>>, mapRow: Row -> Result<Record>)

  /** What a query changes: the prompts the chat client received, the texts
      the embedding service received, the table and the number of
      statements run against it. */
  datatype World = World(sent: seq<Prompt>, requests: seq<string>, table: seq<Row>, statements: nat)

  /** The returned text and the world afterwards. */
  datatype Outcome = Outcome(answer: string, world: World)

  function Failed(s: Setup, message: string): string {
    ErrorText(s.chatName, s.embeddingName, message)
  }

  /** The outcome of the search as statement number `statements`. */
  function Search(s: Setup, table: seq<Row>, statements: nat, query: Embedding): Result<seq<Record>> {
    if FaultAt(s.faults, statements).Some? then Failure(FaultAt(s.faults, statements).value)
    else s.search(table, query)
  }

  /** The row `save` inserts for an answered question. */
  function SavedRow(s: Setup, table: seq<Row>, query: string, answer: string, e: Embedding): Row {
    Row(|table| + 1, Some(query), Some(answer), Some(Serialize(e, s.numbers)))
  }

  /** `processQuery(query)`, step by step; each failure ends the query with
      its error text and leaves the later steps undone. First the question
      is embedded. */
  function Process(s: Setup, query: string, w: World): Outcome {
    var now := w.(requests := w.requests + [query]);
    match ReplyAt(s.embeddings, |w.requests|)
    case Failure(m) => Outcome(Failed(s, m), now)
    case Success(e) => AfterEmbedding(s, query, e, now)
  }

  /** Then the exchanges most similar to its embedding are fetched. */
  function AfterEmbedding(s: Setup, query: string, e: Embedding, w: World): Outcome {
    var now := w.(statements := w.statements + 1);
    match Search(s, w.table, w.statements, e)
    case Failure(m) => Outcome(Failed(s, m), now)
    case Success(near) => AfterSearch(s, query, e, near, now)
  }

  /** Then the chat model is asked the question behind them. */
  function AfterSearch(s: Setup, query: string, e: Embedding, near: seq<Record>, w: World): Outcome {
    var now := w.(sent := w.sent + [QueryPrompt(s.template, near, query)]);
    match ReplyAt(s.chatReplies, |w.sent|)
    case Failure(m) => Outcome(Failed(s, m), now)
    case Success(answer) => AfterAnswer(s, query, e, answer, now)
  }

  /** Finally the exchange is saved, and the answer returned once the saved
      row has been mapped back. */
  function AfterAnswer(s: Setup, query: string, e: Embedding, answer: string, w: World): Outcome {
    var now := w.(statements := w.statements + 1);
    if FaultAt(s.faults, w.statements).Some? then
      Outcome(Failed(s, FaultAt(s.faults, w.statements).value), now)
    else
      var row := SavedRow(s, w.table, query, answer, e);
      var saved := now.(table := w.table + [row]);
      match s.mapRow(row)
      case Failure(m) => Outcome(Failed(s, m), saved)
      case Success(_) => Outcome(answer, saved)
  }

  /** A query asks the embedding service once, for the question itself; it
      runs at most two statements; it asks the chat model at most once, and
      only after the search with the question's own embedding succeeded,
      with the system message and the question behind the exchanges found. */
  lemma ProcessCalls(s: Setup, query: string, w: World)
    ensures var out := Process(s, query, w).world;
      out.requests == w.requests + [query] &&
      w.statements <= out.statements <= w.statements + 2 &&
      (out.sent == w.sent || |out.sent| == |w.sent| + 1)
    ensures var out := Process(s, query, w).world;
      var e := ReplyAt(s.embeddings, |w.requests|);
      out.sent != w.sent ==>
        e.Success? && FaultAt(s.faults, w.statements).None? && s.search(w.table, e.value).Success? &&
        out.sent == w.sent + [QueryPrompt(s.template, s.search(w.table, e.value).value, query)]
  {
  }

  /** The store changes only by one row appended after the chat model
      answered: the question, that answer and the question's embedding
      (not the answer's). */
  lemma ProcessStore(s: Setup, query: string, w: World)
    ensures var out := Process(s, query, w).world;
      var e := ReplyAt(s.embeddings, |w.requests|);
      var reply := ReplyAt(s.chatReplies, |w.sent|);
      out.table == w.table ||
      (e.Success? && reply.Success? && |out.sent| == |w.sent| + 1 &&
       out.table == w.table + [SavedRow(s, w.table, query, reply.value, e.value)])
  {
  }

  /** Every step succeeding, the result is the chat model's answer; the
      first step failing, it is the error text with that failure's message,
      whether or not the answer existed. */
  lemma ProcessAnswer(s: Setup, query: string, w: World)
    ensures var e := ReplyAt(s.embeddings, |w.requests|);
      e.Failure? ==> Process(s, query, w).answer == Failed(s, e.error)
    ensures var e := ReplyAt(s.embeddings, |w.requests|);
      e.Success? && Search(s, w.table, w.statements, e.value).Failure? ==>
        Process(s, query, w).answer == Failed(s, Search(s, w.table, w.statements, e.value).error)
    ensures var e := ReplyAt(s.embeddings, |w.requests|);
      var reply := ReplyAt(s.chatReplies, |w.sent|);
      e.Success? && Search(s, w.table, w.statements, e.value).Success? && reply.Failure? ==>
        Process(s, query, w).answer == Failed(s, reply.error)
    ensures var e := ReplyAt(s.embeddings, |w.requests|);
      var reply := ReplyAt(s.chatReplies, |w.sent|);
      e.Success? && Search(s, w.table, w.statements, e.value).Success? && reply.Success? &&
      FaultAt(s.faults, w.statements + 1).Some? ==>
        Process(s, query, w).answer == Failed(s, FaultAt(s.faults, w.statements + 1).value)
    ensures var e := ReplyAt(s.embeddings, |w.requests|);
      var reply := ReplyAt(s.chatReplies, |w.sent|);
      e.Success? && Search(s, w.table, w.statements, e.value).Success? && reply.Success? &&
      FaultAt(s.faults, w.statements + 1).None? &&
      s.mapRow(SavedRow(s, w.table, query, reply.value, e.value)).Failure? ==>
        Process(s, query, w).answer == Failed(s, s.mapRow(SavedRow(s, w.table, query, reply.value, e.value)).error)
    ensures var e := ReplyAt(s.embeddings, |w.requests|);
      var reply := ReplyAt(s.chatReplies, |w.sent|);
      var succeeds := e.Success? && Search(s, w.table, w.statements, e.value).Success? && reply.Success? &&
        FaultAt(s.faults, w.statements + 1).None? &&
        s.mapRow(SavedRow(s, w.table, query, reply.value, e.value)).Success?;
      (succeeds ==> Process(s, query, w).answer == reply.value) &&
      (!succeeds ==> exists m :: Process(s, query, w).answer == Failed(s, m))
  {
    var out := Process(s, query, w);
    var e := ReplyAt(s.embeddings, |w.requests|);
    var reply := ReplyAt(s.chatReplies, |w.sent|);
    if e.Failure? {
      assert out.answer == Failed(s, e.error);
    } else if Search(s, w.table, w.statements, e.value).Failure? {
      assert out.answer == Failed(s, Search(s, w.table, w.statements, e.value).error);
    } else if reply.Failure? {
      assert out.answer == Failed(s, reply.error);
    } else if FaultAt(s.faults, w.statements + 1).Some? {
      assert out.answer == Failed(s, FaultAt(s.faults, w.statements + 1).value);
    } else if s.mapRow(SavedRow(s, w.table, query, reply.value, e.value)).Failure? {
      assert out.answer == Failed(s, s.mapRow(SavedRow(s, w.table, query, reply.value, e.value)).error);
    }
  }

  /** End to end: when the store maps rows back with the row mapper and the
      question's embedding is non-empty with each of its numbers printing
      and reading back exactly, the saved row maps back to the exchange, so
      the query succeeds whenever the calls and statements do, and the new
      row reads back as the question, the answer and the very embedding
      that was stored. */
  lemma ProcessRoundTrip(s: Setup, query: string, w: World)
    requires s.mapRow == RowToRecordWith(s.numbers)
    requires ReplyAt(s.embeddings, |w.requests|).Success?
    requires var e := ReplyAt(s.embeddings, |w.requests|).value; |e| >= 1 && RoundTrips(s.numbers, e)
    requires Search(s, w.table, w.statements, ReplyAt(s.embeddings, |w.requests|).value).Success?
    requires ReplyAt(s.chatReplies, |w.sent|).Success?
    requires FaultAt(s.faults, w.statements + 1).None?
    ensures var e := ReplyAt(s.embeddings, |w.requests|).value;
      var answer := ReplyAt(s.chatReplies, |w.sent|).value;
      var out := Process(s, query, w);
      out.answer == answer &&
      |out.world.table| == |w.table| + 1 &&
      RowToRecord(out.world.table[|w.table|], s.numbers) ==
        Success(Record(Some(|w.table| + 1), Some(query), Some(answer), Some(e)))
  {
    var e := ReplyAt(s.embeddings, |w.requests|).value;
    var answer := ReplyAt(s.chatReplies, |w.sent|).value;
    var row := SavedRow(s, w.table, query, answer, e);
    SerializeRoundTrip(e, s.numbers);
    assert RowToRecord(row, s.numbers) == Success(Record(Some(|w.table| + 1), Some(query), Some(answer), Some(e)));
    ProcessStore(s, query, w);
    ProcessAnswer(s, query, w);
  }

  /** The service, over its chat client, embedding service and repository. */
  class RagService {
    const chat: ChatClient
    const embedder: EmbeddingClient
    const repository: ChatHistoryRepository
    const chatDeploymentName: string
    const embeddingDeploymentName: string
    const template: QueryTemplate

    constructor (chat: ChatClient, embedder: EmbeddingClient, repository: ChatHistoryRepository,
                 chatDeploymentName: string, embeddingDeploymentName: string)
      ensures this.chat == chat && this.embedder == embedder && this.repository == repository
      ensures this.chatDeploymentName == chatDeploymentName && this.embeddingDeploymentName == embeddingDeploymentName
      ensures template == SOURCE_TEMPLATE
    {
      this.chat, this.embedder, this.repository := chat, embedder, repository;
      this.chatDeploymentName, this.embeddingDeploymentName := chatDeploymentName, embeddingDeploymentName;
      template := SOURCE_TEMPLATE;
    }

    /** The fixed part of the service and its collaborators. */
    function Fixed(): Setup {
      Setup(chatDeploymentName, embeddingDeploymentName, template, chat.replies, embedder.replies,
            repository.faults, repository.numbers,
            (table: seq<Row>, query: Embedding) => Retrieve(table, repository.numbers, repository.similarity, query, NEIGHBOURS),
            RowToRecordWith(repository.numbers))
    }

    /** The changing part. */
    function Now(): World
      reads chat, embedder, repository
    {
      World(chat.sent, embedder.requests, repository.table, repository.statements)
    }

    /** `processQuery`: what it returns and what it leaves behind are those
        of `Process`. */
    method ProcessQuery(query: string) returns (answer: string)
      modifies chat, embedder, repository
      ensures Outcome(answer, Now()) == Process(Fixed(), query, old(Now()))
    {
      var embedded := embedder.Embed(query);
      if embedded.Failure? {
        return ErrorText(chatDeploymentName, embeddingDeploymentName, embedded.error);
      }
      var queryEmbedding := embedded.value;
      ghost var searched := Now();
      var similarContexts := repository.FindNearestNeighbors(queryEmbedding, NEIGHBOURS);
      if similarContexts.Failure? {
        return ErrorText(chatDeploymentName, embeddingDeploymentName, similarContexts.error);
      }
      assert similarContexts == Fixed().search(searched.table, queryEmbedding);
      answer := Answer(query, queryEmbedding, similarContexts.value);
    }

    /** The steps of `processQuery` after the search: build the context and
        the prompt, ask the chat model, save the exchange. */
    method Answer(query: string, queryEmbedding: Embedding, similarContexts: seq<Record>) returns (answer: string)
      modifies chat, repository
      ensures Outcome(answer, Now()) == AfterSearch(Fixed(), query, queryEmbedding, similarContexts, old(Now()))
    {
      var context := BuildContext(similarContexts);
      var promptText := ComposePrompt(template, context, query);
      var reply := chat.Call(Prompt(Some(template.system), promptText));
      if reply.Failure? {
        return ErrorText(chatDeploymentName, embeddingDeploymentName, reply.error);
      }
      answer := SaveExchange(query, queryEmbedding, reply.value);
    }

    /** The last step of `processQuery`: save the exchange, then return the
        answer, or the error text of the exception `save` threw. */
    method SaveExchange(query: string, queryEmbedding: Embedding, reply: string) returns (answer: string)
      modifies repository
      ensures Outcome(answer, Now()) == AfterAnswer(Fixed(), query, queryEmbedding, reply, old(Now()))
    {
      var history := new ChatHistory(Some(query), Some(reply), Some(queryEmbedding));
      var saved := repository.Save(history);
      if saved.Failure? {
        return ErrorText(chatDeploymentName, embeddingDeploymentName, saved.error);
      }
      return reply;
    }
  }
}
