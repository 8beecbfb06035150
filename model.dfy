/** The chat-history record (`model/ChatHistory.java`): a mutable bean
    holding one answered question, and its vector-to-text serialiser. */
module Model {
  import opened Outcomes
  import opened Text

  /** A `double[]` embedding; the doubles are modelled as reals. */
  type Embedding = seq<real>

  /** `String.valueOf(double)` and `Double.parseDouble`, kept abstract: how a
      number is printed and how a printed number is read back (`None` where
      `parseDouble` throws `NumberFormatException`). */
  datatype NumberText = NumberText(show: real -> string, read: string -> Option<real>)

  /** A printed number the bracketed vector text can carry: non-empty, free
      of `,`, `[` and `]`, and without surrounding spaces — as every output
      of `String.valueOf(double)` is. */
  predicate IsToken(t: string) {
    t != [] && ',' !in t && '[' !in t && ']' !in t && !IsSpace(t[0]) && !IsSpace(t[|t| - 1])
  }

  /** Every element of `e` prints as a token that reads back as the element. */
  predicate RoundTrips(numbers: NumberText, e: Embedding) {
    forall i :: 0 <= i < |e| ==> IsToken(numbers.show(e[i])) && numbers.read(numbers.show(e[i])) == Some(e[i])
  }

  /** The printed elements, in order. */
  function Tokens(e: Embedding, numbers: NumberText): (ts: seq<string>)
    ensures |ts| == |e|
    ensures forall i :: 0 <= i < |e| ==> ts[i] == numbers.show(e[i])
  {
    seq(|e|, i requires 0 <= i < |e| => numbers.show(e[i]))
  }

  /** The vector text of a non-null embedding: `"["`, the printed elements
      joined by `","` with no spaces, then `"]"`. */
  function Serialize(e: Embedding, numbers: NumberText): string
  {
    "[" + Join(",", Tokens(e, numbers)) + "]"
  }

  /** An empty embedding prints as `"[]"`. */
  lemma SerializeEmpty(numbers: NumberText)
    ensures Serialize([], numbers) == "[]"
  {
  }

  /** n >= 1 elements whose printed forms hold no comma give exactly n - 1 commas. */
  lemma SerializeCommas(e: Embedding, numbers: NumberText)
    requires |e| >= 1
    requires forall i :: 0 <= i < |e| ==> ',' !in numbers.show(e[i])
    ensures Count(Serialize(e, numbers), ',') == |e| - 1
  {
    var ts := Tokens(e, numbers);
    CountJoin(ts, ',');
    CountAppend("[" + Join(",", ts), "]", ',');
    CountAppend("[", Join(",", ts), ',');
  }

  /** The field values of one `ChatHistory`; what the repository's row
      mapper produces and what the retrieval pipeline ranks. */
  datatype Record = Record(
    id: Option<int>,
    prompt: Option<string>,
    response: Option<string>,
    embedding: Option<Embedding>)

  /** The bean. Its getters are the fields themselves. */
  class ChatHistory {
    var id: Option<int>
    var prompt: Option<string>
    var response: Option<string>
    var embedding: Option<Embedding>

    /** The no-argument constructor: every field null. */
    constructor Empty()
      ensures id == None && prompt == None && response == None && embedding == None
    {
      id, prompt, response, embedding := None, None, None, None;
    }

    /** The three-argument constructor for a new interaction: `id` stays null. */
    constructor (prompt: Option<string>, response: Option<string>, embedding: Option<Embedding>)
      ensures id == None
      ensures this.prompt == prompt && this.response == response && this.embedding == embedding
    {
      this.id := None;
      this.prompt, this.response, this.embedding := prompt, response, embedding;
    }

    /** The four-argument constructor used for database results. */
    constructor WithId(id: Option<int>, prompt: Option<string>, response: Option<string>, embedding: Option<Embedding>)
      ensures this.id == id && this.prompt == prompt && this.response == response && this.embedding == embedding
    {
      this.id, this.prompt, this.response, this.embedding := id, prompt, response, embedding;
    }

    /** The current field values. */
    function Fields(): Record
      reads this
    {
      Record(id, prompt, response, embedding)
    }

    method SetId(id: Option<int>)
      modifies this
      ensures Fields() == old(Fields()).(id := id)
    {
      this.id := id;
    }

    method SetPrompt(prompt: Option<string>)
      modifies this
      ensures Fields() == old(Fields()).(prompt := prompt)
    {
      this.prompt := prompt;
    }

    method SetResponse(response: Option<string>)
      modifies this
      ensures Fields() == old(Fields()).(response := response)
    {
      this.response := response;
    }

    method SetEmbedding(embedding: Option<Embedding>)
      modifies this
      ensures Fields() == old(Fields()).(embedding := embedding)
    {
      this.embedding := embedding;
    }

    /** `getEmbeddingAsString`: null for a null embedding, otherwise the
        bracketed vector text. */
    function GetEmbeddingAsString(numbers: NumberText): Option<string>
      reads this
    {
      if embedding.None? then None else Some(Serialize(embedding.value, numbers))
    }
  }
}
