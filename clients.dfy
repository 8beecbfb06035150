/** The language-model capabilities the services call (`ChatClient` and the
    embedding client behind `EmbeddingService`), modelled as oracles: each
    holds the canned outcomes of its successive calls and a log of what it
    was asked. Call number i (from 0) is answered by outcome i; a client
    asked more often than it has outcomes fails. */
module Clients {
  import opened Outcomes
  import opened Model

  /** A chat `Prompt`: an optional system message and one user message. */
  datatype Prompt = Prompt(system: Option<string>, user: string)

  /** The failure of a call beyond the canned outcomes. */
  const NO_REPLY := "no reply"

  /** The outcome of call number `i`. */
  function ReplyAt<T>(replies: seq<Result<T>>, i: nat): Result<T>
  {
    if i < |replies| then replies[i] else Failure(NO_REPLY)
  }

  /** `chatClient.call(prompt).getResult().getOutput().getContent()`. */
  class ChatClient {
    const replies: seq<Result<string>>
    var sent: seq<Prompt>

    constructor (replies: seq<Result<string>>)
      ensures this.replies == replies && sent == []
    {
      this.replies := replies;
      sent := [];
    }

    method Call(prompt: Prompt) returns (r: Result<string>)
      modifies this
      ensures sent == old(sent) + [prompt]
      ensures r == ReplyAt(replies, |old(sent)|)
    {
      r := ReplyAt(replies, |sent|);
      sent := sent + [prompt];
    }
  }

  /** `embeddingService.generateEmbedding(text)`. */
  class EmbeddingClient {
    const replies: seq<Result<Embedding>>
    var requests: seq<string>

    constructor (replies: seq<Result<Embedding>>)
      ensures this.replies == replies && requests == []
    {
      this.replies := replies;
      requests := [];
    }

    method Embed(text: string) returns (r: Result<Embedding>)
      modifies this
      ensures requests == old(requests) + [text]
      ensures r == ReplyAt(replies, |old(requests)|)
    {
      r := ReplyAt(replies, |requests|);
      requests := requests + [text];
    }
  }
}
