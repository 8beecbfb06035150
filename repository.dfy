/** The chat-history store (`repository/ChatHistoryRepository.java`): the
    row mapper that parses the vector text back into numbers, the in-memory
    nearest-neighbour search (drop null embeddings, stable sort by
    descending score, keep the first k), and `save` as an append. */
module Repository {
  import opened Outcomes
  import opened Text
  import opened Model

  /** One row of table `chat_history`; the embedding column holds vector text. */
  datatype Row = Row(id: int, prompt: Option<string>, response: Option<string>, embedding: Option<string>)

  // ---------------------------------------------------------------------
  // Row mapper
  // ---------------------------------------------------------------------

  /** Applies `f` to every element in order; the first failure is the result. */
  function MapAll<A, B>(xs: seq<A>, f: A -> Result<B>): Result<seq<B>> {
    if xs == [] then Success([])
    else
      var init := xs[..|xs| - 1];
      match MapAll(init, f)
      case Failure(m) => Failure(m)
      case Success(vs) =>
        match f(xs[|xs| - 1])
        case Failure(m) => Failure(m)
        case Success(v) => Success(vs + [v])
  }

  /** `MapAll` succeeds exactly when `f` succeeds on every element, with
      their values in order; otherwise it fails with the failure of the
      first element on which `f` fails. */
  lemma {:induction false} MapAllOutcome<A, B>(xs: seq<A>, f: A -> Result<B>)
    ensures var r := MapAll(xs, f);
      r.Success? <==> forall k :: 0 <= k < |xs| ==> f(xs[k]).Success?
    ensures var r := MapAll(xs, f);
      r.Success? ==> |r.value| == |xs| && forall k :: 0 <= k < |xs| ==> f(xs[k]) == Success(r.value[k])
    ensures var r := MapAll(xs, f);
      r.Failure? ==> exists k :: 0 <= k < |xs| && f(xs[k]) == Failure(r.error) && forall j :: 0 <= j < k ==> f(xs[j]).Success?
  {
    if xs != [] {
      var init := xs[..|xs| - 1];
      MapAllOutcome(init, f);
      assert forall k :: 0 <= k < |init| ==> init[k] == xs[k];
    }
  }

  /** When `f` succeeds on every element, `MapAll` collects exactly its values. */
  lemma {:induction false} MapAllValues<A, B>(xs: seq<A>, f: A -> Result<B>, vs: seq<B>)
    requires |xs| == |vs| && forall k :: 0 <= k < |xs| ==> f(xs[k]) == Success(vs[k])
    ensures MapAll(xs, f) == Success(vs)
  {
    if xs != [] {
      MapAllValues(xs[..|xs| - 1], f, vs[..|vs| - 1]);
      assert vs == vs[..|vs| - 1] + [vs[|vs| - 1]];
    }
  }

  /** Once a prefix fails, the whole sequence fails the same way. */
  lemma {:induction false} MapAllPrefixFailure<A, B>(xs: seq<A>, f: A -> Result<B>, j: nat)
    requires j <= |xs| && MapAll(xs[..j], f).Failure?
    ensures MapAll(xs, f) == MapAll(xs[..j], f)
    decreases |xs|
  {
    if j < |xs| {
      var init := xs[..|xs| - 1];
      assert init[..j] == xs[..j];
      MapAllPrefixFailure(init, f, j);
    } else {
      assert xs[..j] == xs;
    }
  }

  /** The message of the `NumberFormatException` thrown by `parseDouble`
      for an (already trimmed) piece. */
  function NumberFormatMessage(piece: string): string {
    if piece == [] then "empty String" else "For input string: \"" + piece + "\""
  }

  /** `Double.parseDouble(piece)`: the number, or the exception. */
  function ReadNumber(piece: string, numbers: NumberText): Result<real>
  {
    match numbers.read(piece)
    case None => Failure(NumberFormatMessage(piece))
    case Some(v) => Success(v)
  }

  function ReadNumberWith(numbers: NumberText): string -> Result<real> {
    piece => ReadNumber(piece, numbers)
  }

  /** The text the row mapper splits: every `[` and then every `]` removed. */
  function Unbracket(text: string): (t: string)
    ensures '[' !in t && ']' !in t
  {
    RemoveChar(RemoveChar(text, '['), ']')
  }

  /** The pieces handed to `parseDouble`: the unbracketed text split on
      `,`, each piece trimmed; one number per piece. */
  function Pieces(text: string): seq<string>
  {
    var values := Split(Unbracket(text), ',');
    seq(|values|, k requires 0 <= k < |values| => Trim(values[k]))
  }

  /** The embedding column as the row mapper reads it: a null column is a
      null embedding; otherwise one number per piece, in order, or the
      exception of the first piece that does not parse. */
  function ParseEmbedding(column: Option<string>, numbers: NumberText): Result<Option<Embedding>> {
    match column
    case None => Success(None)
    case Some(text) =>
      match MapAll(Pieces(text), ReadNumberWith(numbers))
      case Failure(m) => Failure(m)
      case Success(vs) => Success(Some(vs))
  }

  /** What `ParseEmbedding` yields, piece by piece. */
  lemma ParseEmbeddingOutcome(column: Option<string>, numbers: NumberText)
    ensures var r := ParseEmbedding(column, numbers);
      column.None? ==> r == Success(None)
    ensures var r := ParseEmbedding(column, numbers);
      column.Some? ==>
        (r.Success? <==> forall k :: 0 <= k < |Pieces(column.value)| ==> numbers.read(Pieces(column.value)[k]).Some?)
    ensures var r := ParseEmbedding(column, numbers);
      column.Some? && r.Success? ==>
        r.value.Some? && |r.value.value| == |Pieces(column.value)| &&
        forall k :: 0 <= k < |r.value.value| ==> numbers.read(Pieces(column.value)[k]) == Some(r.value.value[k])
  {
    if column.Some? {
      var ps := Pieces(column.value);
      var f := ReadNumberWith(numbers);
      MapAllOutcome(ps, f);
      assert forall k :: 0 <= k < |ps| ==> f(ps[k]) == ReadNumber(ps[k], numbers);
    }
  }

  /** Reading a sequence of pieces fails with the exception of the first
      piece that does not read, as the loop stops there. */
  lemma ReadAllFailure(ps: seq<string>, numbers: NumberText)
    ensures var r := MapAll(ps, ReadNumberWith(numbers));
      r.Failure? ==>
        exists k :: 0 <= k < |ps| && numbers.read(ps[k]).None? && r.error == NumberFormatMessage(ps[k]) &&
          forall j :: 0 <= j < k ==> numbers.read(ps[j]).Some?
  {
    var f := ReadNumberWith(numbers);
    MapAllOutcome(ps, f);
    if MapAll(ps, f).Failure? {
      var k :| 0 <= k < |ps| && f(ps[k]) == Failure(MapAll(ps, f).error) && forall j :: 0 <= j < k ==> f(ps[j]).Success?;
      assert f(ps[k]) == ReadNumber(ps[k], numbers);
      assert forall j :: 0 <= j < k ==> f(ps[j]) == ReadNumber(ps[j], numbers);
    }
  }

  /** A column that does not parse fails with the exception of its first
      piece that does not read. */
  lemma ParseEmbeddingFailure(text: string, numbers: NumberText)
    ensures var r := ParseEmbedding(Some(text), numbers); var ps := Pieces(text);
      r.Failure? ==>
        exists k :: 0 <= k < |ps| && numbers.read(ps[k]).None? && r.error == NumberFormatMessage(ps[k]) &&
          forall j :: 0 <= j < k ==> numbers.read(ps[j]).Some?
  {
    ReadAllFailure(Pieces(text), numbers);
  }



  /** What the row mapper builds from one row. */
  function RowToRecord(row: Row, numbers: NumberText): Result<Record>
  {
    match ParseEmbedding(row.embedding, numbers)
    case Failure(m) => Failure(m)
    case Success(e) => Success(Record(Some(row.id), row.prompt, row.response, e))
  }

  function RowToRecordWith(numbers: NumberText): Row -> Result<Record> {
    row => RowToRecord(row, numbers)
  }

  /** One more element: its outcome is appended, unless something failed before. */
  lemma MapAllSnoc<A, B>(xs: seq<A>, x: A, f: A -> Result<B>)
    ensures MapAll(xs + [x], f) ==
      if MapAll(xs, f).Failure? then MapAll(xs, f)
      else if f(x).Failure? then Failure(f(x).error)
      else Success(MapAll(xs, f).value + [f(x).value])
  {
    assert (xs + [x])[..|xs|] == xs;
  }

  /** One step of a left-to-right pass: the next outcome either fails the
      whole pass or extends the values so far. */
  lemma MapAllStep<A, B>(xs: seq<A>, i: nat, f: A -> Result<B>, done: seq<B>)
    requires i < |xs| && MapAll(xs[..i], f) == Success(done)
    ensures f(xs[i]).Failure? ==> MapAll(xs, f) == Failure(f(xs[i]).error)
    ensures f(xs[i]).Success? ==> MapAll(xs[..i + 1], f) == Success(done + [f(xs[i]).value])
  {
    MapAllSnoc(xs[..i], xs[i], f);
    assert xs[..i + 1] == xs[..i] + [xs[i]];
    if f(xs[i]).Failure? {
      MapAllPrefixFailure(xs, f, i + 1);
    }
  }

  /** The loop of the row mapper: one `parseDouble` per piece, into a
      `double[]` as long as the number of pieces. */
  method ParseVector(text: string, numbers: NumberText) returns (r: Result<Embedding>)
    ensures r == MapAll(Pieces(text), ReadNumberWith(numbers))
  {
    var values := Split(Unbracket(text), ',');
    var parsed := new real[|values|];
    ghost var f := ReadNumberWith(numbers);
    ghost var ps := Pieces(text);
    for i := 0 to |values|
      invariant MapAll(ps[..i], f) == Success(parsed[..i])
    {
      var piece := Trim(values[i]);
      var v := ReadNumber(piece, numbers);
      MapAllStep(ps, i, f, parsed[..i]);
      if v.Failure? {
        return Failure(v.error);
      }
      parsed[i] := v.value;
      assert parsed[..i + 1] == parsed[..i] + [v.value];
    }
    assert ps[..|values|] == ps;
    assert parsed[..] == parsed[..|values|];
    r := Success(parsed[..]);
  }

  /** The row mapper. */
  method MapRow(row: Row, numbers: NumberText) returns (r: Result<Record>)
    ensures r == RowToRecord(row, numbers)
  {
    var embedding: Option<Embedding> := None;
    if row.embedding.Some? {
      var parsed := ParseVector(row.embedding.value, numbers);
      if parsed.Failure? {
        return Failure(parsed.error);
      }
      embedding := Some(parsed.value);
    }
    r := Success(Record(Some(row.id), row.prompt, row.response, embedding));
  }

  // ---------------------------------------------------------------------
  // The vector codec
  // ---------------------------------------------------------------------

  /** Removing the brackets from a bracketed join of bracket-free parts
      leaves the join. */
  lemma UnbracketJoin(ts: seq<string>)
    requires forall k :: 0 <= k < |ts| ==> '[' !in ts[k] && ']' !in ts[k]
    ensures Unbracket("[" + Join(",", ts) + "]") == Join(",", ts)
  {
    var joined := Join(",", ts);
    NotInJoin(",", ts, '[');
    NotInJoin(",", ts, ']');
    RemoveCharAppend("[" + joined, "]", '[');
    RemoveCharAppend("[", joined, '[');
    RemoveAbsentChar(joined, '[');
    RemoveAbsentChar("]", '[');
    assert "["[1..] == "";
    assert RemoveChar("[" + joined + "]", '[') == joined + "]";
    RemoveCharAppend(joined, "]", ']');
    RemoveAbsentChar(joined, ']');
    assert "]"[1..] == "";
  }

  /** Splitting a comma join of non-empty, comma-free parts gives the parts. */
  lemma SplitTokens(ts: seq<string>)
    requires |ts| >= 1
    requires forall k :: 0 <= k < |ts| ==> ts[k] != "" && ',' !in ts[k]
    ensures Split(Join(",", ts), ',') == ts
  {
    assert "," == [','];
    SplitJoin(ts, ',');
    if |ts| == 1 {
      assert Join(",", ts) == ts[0];
    } else {
      assert ts[|ts| - 1] != "";
    }
  }

  /** A non-empty embedding's text splits back into its printed elements. */
  lemma PiecesOfSerialize(e: Embedding, numbers: NumberText)
    requires |e| >= 1
    requires forall i :: 0 <= i < |e| ==> IsToken(numbers.show(e[i]))
    ensures Pieces(Serialize(e, numbers)) == Tokens(e, numbers)
  {
    var ts := Tokens(e, numbers);
    UnbracketJoin(ts);
    SplitTokens(ts);
    assert Unbracket(Serialize(e, numbers)) == Join(",", ts);
    var ps := Pieces(Serialize(e, numbers));
    forall k | 0 <= k < |ps|
      ensures ps[k] == ts[k]
    {
      assert ps[k] == Trim(ts[k]);
    }
  }

  /** The round trip of the vector text: a non-empty embedding whose
      elements print as tokens that read back is recovered exactly. */
  lemma SerializeRoundTrip(e: Embedding, numbers: NumberText)
    requires |e| >= 1 && RoundTrips(numbers, e)
    ensures ParseEmbedding(Some(Serialize(e, numbers)), numbers) == Success(Some(e))
  {
    PiecesOfSerialize(e, numbers);
    var ps := Pieces(Serialize(e, numbers));
    forall k | 0 <= k < |ps|
      ensures ReadNumberWith(numbers)(ps[k]) == Success(e[k])
    {
      assert ps[k] == numbers.show(e[k]);
    }
    MapAllValues(ps, ReadNumberWith(numbers), e);
  }

  /** The vector text of a bean reads back as the bean's embedding: null as
      null, and a non-empty embedding whose numbers print and read back
      exactly as itself. */
  lemma EmbeddingTextRoundTrip(h: ChatHistory, numbers: NumberText)
    requires h.embedding.Some? ==> |h.embedding.value| >= 1 && RoundTrips(numbers, h.embedding.value)
    ensures ParseEmbedding(h.GetEmbeddingAsString(numbers), numbers) == Success(h.embedding)
  {
    if h.embedding.Some? {
      SerializeRoundTrip(h.embedding.value, numbers);
    }
  }

  /** The row `save` inserts for a bean maps back to the bean's fields with
      the new id, so `save` returns what it was given, now identified. */
  lemma SavedRowReadsBack(h: ChatHistory, id: int, numbers: NumberText)
    requires h.embedding.Some? ==> |h.embedding.value| >= 1 && RoundTrips(numbers, h.embedding.value)
    ensures RowToRecord(Row(id, h.prompt, h.response, h.GetEmbeddingAsString(numbers)), numbers) ==
      Success(h.Fields().(id := Some(id)))
  {
    EmbeddingTextRoundTrip(h, numbers);
  }

  /** An empty embedding does not round-trip: `"[]"` becomes the single
      piece `""`, on which `parseDouble` throws. */
  lemma EmptyEmbeddingFails(numbers: NumberText)
    requires numbers.read("") == None
    ensures Pieces(Serialize([], numbers)) == [""]
    ensures ParseEmbedding(Some(Serialize([], numbers)), numbers) == Failure("empty String")
  {
    assert Serialize([], numbers) == "[]";
    assert RemoveChar("[]", '[') == "]" by {
      assert "[]"[1..] == "]";
      assert "]"[1..] == "";
    }
    assert RemoveChar("]", ']') == "" by {
      assert "]"[1..] == "";
    }
    assert Split("", ',') == [""];
  }

  /** Brackets anywhere in the text are ignored, not just the outer ones. */
  lemma BracketsIgnored(a: string, b: string, c: char)
    requires c == '[' || c == ']'
    ensures Pieces(a + [c] + b) == Pieces(a + b)
  {
    RemoveCharAppend(a + [c], b, '[');
    RemoveCharAppend(a, [c], '[');
    RemoveCharAppend(a, b, '[');
    var a1, b1 := RemoveChar(a, '['), RemoveChar(b, '[');
    RemoveCharAppend(a1 + RemoveChar([c], '['), b1, ']');
    RemoveCharAppend(a1, RemoveChar([c], '['), ']');
    RemoveCharAppend(a1, b1, ']');
    assert [c][1..] == [];
    assert Unbracket(a + [c] + b) == Unbracket(a + b);
  }

  // ---------------------------------------------------------------------
  // Nearest-neighbour search
  // ---------------------------------------------------------------------

  /** `.filter(h -> h.getEmbedding() != null)`. */
  function WithEmbedding(rs: seq<Record>): (out: seq<Record>)
    ensures forall k :: 0 <= k < |out| ==> out[k].embedding.Some?
  {
    if rs == [] then []
    else (if rs[0].embedding.Some? then [rs[0]] else []) + WithEmbedding(rs[1..])
  }

  /** The filter keeps every record with an embedding as often as it
      occurs, and drops every other record. */
  lemma {:induction false} WithEmbeddingCounts(rs: seq<Record>)
    ensures forall r :: multiset(WithEmbedding(rs))[r] == if r.embedding.Some? then multiset(rs)[r] else 0
  {
    if rs != [] {
      WithEmbeddingCounts(rs[1..]);
      assert rs == [rs[0]] + rs[1..];
      assert multiset(rs) == multiset{rs[0]} + multiset(rs[1..]);
    }
  }

  /** Descending order by `key`. */
  predicate SortedDesc<T>(s: seq<T>, key: T -> real) {
    forall i, j :: 0 <= i < j < |s| ==> key(s[j]) <= key(s[i])
  }

  /** Inserts `x` in front of the first element that does not score
      higher, so it follows every element that does and precedes every
      element of equal score. */
  function Insert<T>(x: T, s: seq<T>, key: T -> real): (r: seq<T>)
    ensures multiset(r) == multiset(s) + multiset{x}
  {
    if s == [] || key(s[0]) <= key(x) then [x] + s
    else
      assert s == [s[0]] + s[1..];
      [s[0]] + Insert(x, s[1..], key)
  }

  lemma {:induction false} InsertSorted<T>(x: T, s: seq<T>, key: T -> real)
    requires SortedDesc(s, key)
    ensures SortedDesc(Insert(x, s, key), key)
  {
    if s != [] && key(x) < key(s[0]) {
      InsertSorted(x, s[1..], key);
      var t := Insert(x, s[1..], key);
      forall y | y in t
        ensures key(y) <= key(s[0])
      {
        assert y in multiset(t);
        if y != x {
          assert y in multiset(s[1..]);
          var j :| 0 <= j < |s[1..]| && s[1..][j] == y;
          assert s[j + 1] == y;
        }
      }
      forall i, j | 0 <= i < j < |[s[0]] + t|
        ensures key(([s[0]] + t)[j]) <= key(([s[0]] + t)[i])
      {
        if i == 0 {
          assert ([s[0]] + t)[j] == t[j - 1];
          assert t[j - 1] in t;
        }
      }
    }
  }

  /** The stable sort of `.sorted(...)` under the reversed comparator. */
  function SortDesc<T>(xs: seq<T>, key: T -> real): (r: seq<T>)
    ensures multiset(r) == multiset(xs)
    ensures SortedDesc(r, key)
  {
    if xs == [] then []
    else
      var rest := SortDesc(xs[1..], key);
      InsertSorted(xs[0], rest, key);
      assert xs == [xs[0]] + xs[1..];
      Insert(xs[0], rest, key)
  }

  /** The elements scoring exactly `v`, in order. */
  function KeyFilter<T>(s: seq<T>, key: T -> real, v: real): seq<T> {
    if s == [] then []
    else (if key(s[0]) == v then [s[0]] else []) + KeyFilter(s[1..], key, v)
  }

  lemma {:induction false} KeyFilterAppend<T>(a: seq<T>, b: seq<T>, key: T -> real, v: real)
    ensures KeyFilter(a + b, key, v) == KeyFilter(a, key, v) + KeyFilter(b, key, v)
  {
    if a == [] {
      assert a + b == b;
    } else {
      var head := if key(a[0]) == v then [a[0]] else [];
      assert (a + b)[0] == a[0] && (a + b)[1..] == a[1..] + b;
      assert KeyFilter(a + b, key, v) == head + KeyFilter(a[1..] + b, key, v);
      KeyFilterAppend(a[1..], b, key, v);
      assert KeyFilter(a, key, v) == head + KeyFilter(a[1..], key, v);
    }
  }

  lemma {:induction false} InsertKeyFilter<T>(x: T, s: seq<T>, key: T -> real, v: real)
    ensures KeyFilter(Insert(x, s, key), key, v) == (if key(x) == v then [x] else []) + KeyFilter(s, key, v)
  {
    if s == [] || key(s[0]) <= key(x) {
      assert Insert(x, s, key) == [x] + s;
      assert ([x] + s)[1..] == s;
    } else {
      var t := Insert(x, s[1..], key);
      assert Insert(x, s, key) == [s[0]] + t;
      InsertKeyFilter(x, s[1..], key, v);
      assert ([s[0]] + t)[0] == s[0] && ([s[0]] + t)[1..] == t;
      assert KeyFilter([s[0]] + t, key, v) == (if key(s[0]) == v then [s[0]] else []) + KeyFilter(t, key, v);
      assert KeyFilter(s, key, v) == (if key(s[0]) == v then [s[0]] else []) + KeyFilter(s[1..], key, v);
      assert key(x) == v ==> key(s[0]) != v;
    }
  }

  /** Sorting keeps, for every score, the original order of the elements
      having that score. */
  lemma {:induction false} SortStable<T>(xs: seq<T>, key: T -> real, v: real)
    ensures KeyFilter(SortDesc(xs, key), key, v) == KeyFilter(xs, key, v)
  {
    if xs != [] {
      SortStable(xs[1..], key, v);
      InsertKeyFilter(xs[0], SortDesc(xs[1..], key), key, v);
    }
  }

  /** `.limit(k)`. */
  function Take<T>(s: seq<T>, k: nat): seq<T>
  {
    if k < |s| then s[..k] else s
  }

  /** The stream pipeline of `findNearestNeighbors` over the scanned records. */
  function TopK(all: seq<Record>, key: Record -> real, k: nat): seq<Record> {
    Take(SortDesc(WithEmbedding(all), key), k)
  }

  /** The score the comparator compares: the similarity of a record's
      embedding to the query (records without one are filtered out first). */
  function Score(similarity: (Embedding, Embedding) -> real, query: Embedding): Record -> real {
    (r: Record) => if r.embedding.Some? then similarity(r.embedding.value, query) else 0.0
  }

  /** At most k results; exactly k when there are that many candidates,
      otherwise all of them; none without an embedding. */
  lemma TopKSize(all: seq<Record>, key: Record -> real, k: nat)
    ensures |TopK(all, key, k)| <= k
    ensures |TopK(all, key, k)| == if k < |WithEmbedding(all)| then k else |WithEmbedding(all)|
    ensures forall i :: 0 <= i < |TopK(all, key, k)| ==> TopK(all, key, k)[i].embedding.Some?
  {
    var sorted := SortDesc(WithEmbedding(all), key);
    assert |sorted| == |WithEmbedding(all)| by {
      assert |multiset(sorted)| == |multiset(WithEmbedding(all))|;
    }
    forall i | 0 <= i < |TopK(all, key, k)|
      ensures TopK(all, key, k)[i].embedding.Some?
    {
      var r := TopK(all, key, k)[i];
      assert r == sorted[i];
      assert r in multiset(WithEmbedding(all));
    }
  }

  /** The results are in non-increasing score order, highest first. */
  lemma TopKOrdered(all: seq<Record>, key: Record -> real, k: nat)
    ensures SortedDesc(TopK(all, key, k), key)
  {
    var sorted := SortDesc(WithEmbedding(all), key);
    var r := TopK(all, key, k);
    forall i, j | 0 <= i < j < |r|
      ensures key(r[j]) <= key(r[i])
    {
      assert r[i] == sorted[i] && r[j] == sorted[j];
    }
  }

  /** Results come from the scan, no more often than they occur there. */
  lemma TopKFromScan(all: seq<Record>, key: Record -> real, k: nat)
    ensures multiset(TopK(all, key, k)) <= multiset(WithEmbedding(all))
    ensures multiset(WithEmbedding(all)) <= multiset(all)
  {
    TakeIncluded(SortDesc(WithEmbedding(all), key), k);
    WithEmbeddingIncluded(all);
  }

  lemma TakeIncluded<T>(s: seq<T>, k: nat)
    ensures multiset(Take(s, k)) <= multiset(s)
  {
    var r := Take(s, k);
    assert s == r + s[|r|..];
    assert multiset(s) == multiset(r) + multiset(s[|r|..]);
  }

  lemma WithEmbeddingIncluded(all: seq<Record>)
    ensures multiset(WithEmbedding(all)) <= multiset(all)
  {
    WithEmbeddingCounts(all);
  }

  /** Records of equal score keep their scan order: for every score, the
      results having it are the first of the candidates having it. */
  lemma TopKStable(all: seq<Record>, key: Record -> real, k: nat, v: real)
    ensures KeyFilter(TopK(all, key, k), key, v) <= KeyFilter(WithEmbedding(all), key, v)
  {
    var sorted := SortDesc(WithEmbedding(all), key);
    var r := TopK(all, key, k);
    assert sorted == r + sorted[|r|..];
    KeyFilterAppend(r, sorted[|r|..], key, v);
    SortStable(WithEmbedding(all), key, v);
  }

  /** Top-k: every candidate left out scores no higher than every result. */
  lemma TopKBest(all: seq<Record>, key: Record -> real, k: nat)
    ensures forall c, x :: c in multiset(WithEmbedding(all)) - multiset(TopK(all, key, k)) && x in TopK(all, key, k) ==> key(c) <= key(x)
  {
    var sorted := SortDesc(WithEmbedding(all), key);
    var r := TopK(all, key, k);
    var rest := sorted[|r|..];
    assert sorted == r + rest;
    assert multiset(sorted) == multiset(r) + multiset(rest);
    forall c, x | c in multiset(WithEmbedding(all)) - multiset(r) && x in r
      ensures key(c) <= key(x)
    {
      assert c in multiset(rest);
      var j :| 0 <= j < |rest| && rest[j] == c;
      var i :| 0 <= i < |r| && r[i] == x;
      assert sorted[|r| + j] == c && sorted[i] == x;
    }
  }

  /** With at most k candidates, every one of them is returned. */
  lemma TopKAll(all: seq<Record>, key: Record -> real, k: nat)
    requires |WithEmbedding(all)| <= k
    ensures multiset(TopK(all, key, k)) == multiset(WithEmbedding(all))
  {
    var sorted := SortDesc(WithEmbedding(all), key);
    assert |sorted| == |WithEmbedding(all)| by {
      assert |multiset(sorted)| == |multiset(WithEmbedding(all))|;
    }
  }

  /** `findNearestNeighbors` once the scan's statement has run: every row
      through the row mapper (the first failure propagates), then the
      pipeline. */
  function Retrieve(table: seq<Row>, numbers: NumberText, similarity: (Embedding, Embedding) -> real,
                    query: Embedding, k: nat): Result<seq<Record>>
  {
    match MapAll(table, RowToRecordWith(numbers))
    case Failure(m) => Failure(m)
    case Success(all) => Success(TopK(all, Score(similarity, query), k))
  }

  /** The database's answer to statement number `i`: a fault, or none. */
  function FaultAt(faults: seq<Option<string>>, i: nat): Option<string> {
    if i < |faults| then faults[i] else None
  }

  // ---------------------------------------------------------------------
  // The repository
  // ---------------------------------------------------------------------

  /** The repository over table `chat_history`. Statement number i either
      runs or fails with the scheduled fault `faults[i]`. */
  class ChatHistoryRepository {
    var table: seq<Row>
    var statements: nat
    const faults: seq<Option<string>>
    const numbers: NumberText
    const similarity: (Embedding, Embedding) -> real

    constructor (table: seq<Row>, faults: seq<Option<string>>, numbers: NumberText,
                 similarity: (Embedding, Embedding) -> real)
      ensures this.table == table && statements == 0
      ensures this.faults == faults && this.numbers == numbers && this.similarity == similarity
    {
      this.table, statements := table, 0;
      this.faults, this.numbers, this.similarity := faults, numbers, similarity;
    }

    /** `save`: the INSERT appends one row (its id the next serial number)
        holding the bean's prompt, response and vector text; the row the
        INSERT returns then goes through the row mapper. */
    method Save(history: ChatHistory) returns (r: Result<Record>)
      modifies this
      ensures statements == old(statements) + 1
      ensures FaultAt(faults, old(statements)).Some? ==>
        table == old(table) && r == Failure(FaultAt(faults, old(statements)).value)
      ensures FaultAt(faults, old(statements)).None? ==>
        table == old(table) + [Row(|old(table)| + 1, history.prompt, history.response, history.GetEmbeddingAsString(numbers))] &&
        r == RowToRecord(table[|table| - 1], numbers)
    {
      var fault := FaultAt(faults, statements);
      statements := statements + 1;
      if fault.Some? {
        return Failure(fault.value);
      }
      var row := Row(|table| + 1, history.prompt, history.response, history.GetEmbeddingAsString(numbers));
      table := table + [row];
      r := MapRow(row, numbers);
    }

    /** `findNearestNeighbors(queryEmbedding, k)`: scan the whole table
        through the row mapper, then rank in memory. */
    method FindNearestNeighbors(queryEmbedding: Embedding, k: nat) returns (r: Result<seq<Record>>)
      modifies this`statements
      ensures statements == old(statements) + 1
      ensures FaultAt(faults, old(statements)).Some? ==> r == Failure(FaultAt(faults, old(statements)).value)
      ensures FaultAt(faults, old(statements)).None? ==> r == Retrieve(table, numbers, similarity, queryEmbedding, k)
    {
      var fault := FaultAt(faults, statements);
      statements := statements + 1;
      if fault.Some? {
        return Failure(fault.value);
      }
      var allHistory: seq<Record> := [];
      for i := 0 to |table|
        invariant statements == old(statements) + 1
        invariant MapAll(table[..i], RowToRecordWith(numbers)) == Success(allHistory)
      {
        var h := MapRow(table[i], numbers);
        MapAllStep(table, i, RowToRecordWith(numbers), allHistory);
        if h.Failure? {
          return Failure(h.error);
        }
        allHistory := allHistory + [h.value];
      }
      assert table[..|table|] == table;
      assert MapAll(table, RowToRecordWith(numbers)) == Success(allHistory);
      r := Success(TopK(allHistory, Score(similarity, queryEmbedding), k));
    }
  }
}
