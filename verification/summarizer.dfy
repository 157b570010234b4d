/** The backend's summariser (`services/summarizer.py`): the greedy word
    packer `chunk_text` and the branching of `summarize_text`. The language
    model is a parameter `llm` from prompt to reply or exception message. */
module Summarizer {
  import opened Wrappers
  import opened Text

  /** A word of `str.split()`: non-empty and free of whitespace. */
  predicate IsWord(w: string) {
    w != [] && forall i | 0 <= i < |w| :: !IsSpace(w[i])
  }

  /** Length of the run of non-whitespace characters that starts `s`. */
  function WordEnd(s: string): (n: nat)
    ensures n <= |s|
    ensures forall i | 0 <= i < n :: !IsSpace(s[i])
    ensures n < |s| ==> IsSpace(s[n])
  {
    if s == [] || IsSpace(s[0]) then 0 else 1 + WordEnd(s[1..])
  }

  lemma AllWordsCons(w: string, rest: seq<string>)
    requires IsWord(w) && forall i | 0 <= i < |rest| :: IsWord(rest[i])
    ensures forall i | 0 <= i < |[w] + rest| :: IsWord(([w] + rest)[i])
  {
    forall i | 0 < i < |[w] + rest| ensures IsWord(([w] + rest)[i]) {
      assert ([w] + rest)[i] == rest[i - 1];
    }
  }

  /** Python `text.split()`: the maximal runs of non-whitespace, in order. */
  function Words(s: string): (r: seq<string>)
    ensures forall i | 0 <= i < |r| :: IsWord(r[i])
    ensures r == [] <==> IsBlank(s)
    decreases |s|
  {
    var t := TrimStart(s);
    if t == [] then
      assert s[..|s|] == s;
      []
    else
      var n := WordEnd(t);
      assert !IsBlank(s) by {
        assert s[|s| - |t|] == t[0];
      }
      var w := t[..n];
      assert IsWord(w) by {
        assert n > 0;
        forall i | 0 <= i < |w| ensures !IsSpace(w[i]) {
          assert w[i] == t[i];
        }
      }
      var rest := Words(t[n..]);
      AllWordsCons(w, rest);
      [w] + rest
  }

  lemma WordEndOfJoin(w: string, rest: string)
    requires IsWord(w)
    ensures WordEnd(w + " " + rest) == |w|
    decreases |w|
  {
    if |w| > 1 {
      assert (w + " " + rest)[1..] == w[1..] + " " + rest;
      WordEndOfJoin(w[1..], rest);
    }
  }

  /** A single word splits to itself. */
  lemma WordsOfWord(w: string)
    requires IsWord(w)
    ensures Words(w) == [w]
  {
    assert TrimStart(w) == w;
    if WordEnd(w) < |w| {
      assert IsSpace(w[WordEnd(w)]);
    }
    assert w[..|w|] == w;
    assert w[|w|..] == [];
  }

  lemma WordsAfterSpace(rest: string)
    ensures Words(" " + rest) == Words(rest)
  {
    assert (" " + rest)[1..] == rest;
    assert TrimStart(" " + rest) == TrimStart(rest);
  }

  lemma WordsOfLeadingWord(w: string, rest: string)
    requires IsWord(w)
    ensures Words(w + " " + rest) == [w] + Words(rest)
  {
    var s := w + " " + rest;
    assert TrimStart(s) == s;
    WordEndOfJoin(w, rest);
    assert s[..|w|] == w;
    assert s[|w|..] == " " + rest;
    WordsAfterSpace(rest);
  }

  /** Splitting single-space-joined words gives the words back. */
  lemma {:induction false} SplitJoinRoundTrip(g: seq<string>)
    requires forall i | 0 <= i < |g| :: IsWord(g[i])
    ensures Words(Join(" ", g)) == g
    decreases |g|
  {
    if g == [] {
      assert Join(" ", g) == "";
      assert TrimStart("") == "";
    } else if |g| == 1 {
      assert Join(" ", g) == g[0];
      WordsOfWord(g[0]);
    } else {
      var rest := g[1..];
      assert g == [g[0]] + rest;
      assert forall i | 0 <= i < |rest| :: IsWord(rest[i]) by {
        forall i | 0 <= i < |rest| ensures IsWord(rest[i]) {
          assert rest[i] == g[i + 1];
        }
      }
      SplitJoinRoundTrip(rest);
      var joined := Join(" ", rest);
      assert Join(" ", g) == g[0] + " " + joined;
      WordsOfLeadingWord(g[0], joined);
    }
  }

  /** What one word adds to a chunk's running length: its length plus one. */
  function Cost(g: seq<string>): int {
    if g == [] then 0 else Cost(g[..|g| - 1]) + |g[|g| - 1]| + 1
  }

  /** Concatenation of the word groups. */
  function Flatten(gs: seq<seq<string>>): seq<string> {
    if gs == [] then [] else Flatten(gs[..|gs| - 1]) + gs[|gs| - 1]
  }

  /** The packer's loop state: the closed chunks (as word groups), the open
      chunk and its running length. */
  datatype Packing = Packing(closed: seq<seq<string>>, current: seq<string>, length: int)

  /** One iteration of the packer's loop. */
  function Step(p: Packing, word: string, maxChunkSize: int): Packing {
    var wordLength := |word| + 1;
    if p.length + wordLength > maxChunkSize && p.current != [] then
      Packing(p.closed + [p.current], [word], wordLength)
    else
      Packing(p.closed, p.current + [word], p.length + wordLength)
  }

  /** The loop state after the given words. */
  function PackAll(words: seq<string>, maxChunkSize: int): Packing {
    if words == [] then Packing([], [], 0)
    else Step(PackAll(words[..|words| - 1], maxChunkSize), words[|words| - 1], maxChunkSize)
  }

  /** The chunks as word groups: the closed ones and the open one, if any. */
  function Groups(words: seq<string>, maxChunkSize: int): seq<seq<string>> {
    Finish(PackAll(words, maxChunkSize))
  }

  /** The groups a loop state ends with: the open chunk is flushed if non-empty. */
  function Finish(p: Packing): seq<seq<string>> {
    if p.current != [] then p.closed + [p.current] else p.closed
  }

  /** Each word group joined by single spaces. */
  function Joined(gs: seq<seq<string>>): (r: seq<string>)
    ensures |r| == |gs| && forall i | 0 <= i < |gs| :: r[i] == Join(" ", gs[i])
  {
    seq(|gs|, i requires 0 <= i < |gs| => Join(" ", gs[i]))
  }

  lemma JoinedAppend(gs: seq<seq<string>>, g: seq<string>)
    ensures Joined(gs + [g]) == Joined(gs) + [Join(" ", g)]
  {
  }

  /** `chunk_text(text, max_chunk_size)`: each group joined by single spaces. */
  function Chunks(text: string, maxChunkSize: int): seq<string> {
    Joined(Groups(Words(text), maxChunkSize))
  }

  /** The loop state holds the words seen so far, in order, and the open
      chunk's running length. */
  ghost predicate Partitions(p: Packing, words: seq<string>) {
    && Flatten(p.closed) + p.current == words
    && (p.current == [] <==> words == [])
    && (p.current == [] ==> p.closed == [])
    && p.length == Cost(p.current)
  }

  /** No chunk is empty, and a chunk over the limit is a single word. */
  ghost predicate WithinLimit(p: Packing, maxChunkSize: int) {
    && (forall i | 0 <= i < |p.closed| :: p.closed[i] != [])
    && (forall i | 0 <= i < |p.closed| :: |p.closed[i]| >= 2 ==> Cost(p.closed[i]) <= maxChunkSize)
    && (|p.current| >= 2 ==> Cost(p.current) <= maxChunkSize)
  }

  /** Every chunk was closed only because the next word did not fit. */
  ghost predicate GreedyBreaks(p: Packing, maxChunkSize: int) {
    && (forall i | 0 < i < |p.closed| :: p.closed[i] != [] ==> Cost(p.closed[i - 1]) + |p.closed[i][0]| + 1 > maxChunkSize)
    && (p.closed != [] && p.current != [] ==> Cost(p.closed[|p.closed| - 1]) + |p.current[0]| + 1 > maxChunkSize)
  }

  /** What holds of the loop state after the words `words`. */
  ghost predicate PackingInvariant(p: Packing, words: seq<string>, maxChunkSize: int) {
    Partitions(p, words) && WithinLimit(p, maxChunkSize) && GreedyBreaks(p, maxChunkSize)
  }

  lemma CostAppend(g: seq<string>, w: string)
    ensures Cost(g + [w]) == Cost(g) + |w| + 1
  {
    assert (g + [w])[..|g|] == g;
  }

  lemma FlattenAppend(gs: seq<seq<string>>, g: seq<string>)
    ensures Flatten(gs + [g]) == Flatten(gs) + g
  {
    assert (gs + [g])[..|gs|] == gs;
  }

  /** The state after a word that starts a new chunk. */
  function Closed(p: Packing, w: string): Packing {
    Packing(p.closed + [p.current], [w], |w| + 1)
  }

  /** The state after a word that joins the open chunk. */
  function Extended(p: Packing, w: string): Packing {
    Packing(p.closed, p.current + [w], p.length + |w| + 1)
  }

  lemma ClosedPartitions(p: Packing, words: seq<string>, w: string)
    requires Partitions(p, words) && p.current != []
    ensures Partitions(Closed(p, w), words + [w])
  {
    FlattenAppend(p.closed, p.current);
    CostAppend([], w);
  }

  lemma ClosedWithinLimit(p: Packing, w: string, maxChunkSize: int)
    requires WithinLimit(p, maxChunkSize) && p.current != []
    requires |p.current| >= 2 ==> Cost(p.current) <= maxChunkSize
    ensures WithinLimit(Closed(p, w), maxChunkSize)
  {
    var q := Closed(p, w);
    forall i | 0 <= i < |q.closed|
      ensures q.closed[i] != []
      ensures |q.closed[i]| >= 2 ==> Cost(q.closed[i]) <= maxChunkSize
    {
      if i < |p.closed| {
        assert q.closed[i] == p.closed[i];
      }
    }
  }

  lemma ClosedGreedy(p: Packing, w: string, maxChunkSize: int)
    requires GreedyBreaks(p, maxChunkSize) && p.current != []
    requires Cost(p.current) + |w| + 1 > maxChunkSize
    ensures GreedyBreaks(Closed(p, w), maxChunkSize)
  {
    var q := Closed(p, w);
    forall i | 0 < i < |q.closed| && q.closed[i] != []
      ensures Cost(q.closed[i - 1]) + |q.closed[i][0]| + 1 > maxChunkSize
    {
      if i < |p.closed| {
        assert q.closed[i - 1] == p.closed[i - 1] && q.closed[i] == p.closed[i];
      } else {
        assert q.closed[i - 1] == p.closed[|p.closed| - 1] && q.closed[i] == p.current;
      }
    }
    assert q.closed[|q.closed| - 1] == p.current;
  }

  lemma ExtendedPartitions(p: Packing, words: seq<string>, w: string)
    requires Partitions(p, words)
    ensures Partitions(Extended(p, w), words + [w])
  {
    CostAppend(p.current, w);
    assert Flatten(p.closed) + (p.current + [w]) == (Flatten(p.closed) + p.current) + [w];
  }

  lemma ExtendedWithinLimit(p: Packing, w: string, maxChunkSize: int)
    requires WithinLimit(p, maxChunkSize)
    requires p.current != [] ==> Cost(p.current) + |w| + 1 <= maxChunkSize
    ensures WithinLimit(Extended(p, w), maxChunkSize)
  {
    CostAppend(p.current, w);
  }

  lemma ExtendedGreedy(p: Packing, w: string, maxChunkSize: int)
    requires GreedyBreaks(p, maxChunkSize)
    requires p.current == [] ==> p.closed == []
    ensures GreedyBreaks(Extended(p, w), maxChunkSize)
  {
    if p.current != [] {
      assert (p.current + [w])[0] == p.current[0];
    }
  }

  /** The loop state after a word that starts a new chunk. */
  lemma StepCloses(p: Packing, words: seq<string>, w: string, maxChunkSize: int)
    requires PackingInvariant(p, words, maxChunkSize)
    requires p.length + |w| + 1 > maxChunkSize && p.current != []
    ensures PackingInvariant(Step(p, w, maxChunkSize), words + [w], maxChunkSize)
  {
    assert Step(p, w, maxChunkSize) == Closed(p, w);
    ClosedPartitions(p, words, w);
    ClosedWithinLimit(p, w, maxChunkSize);
    ClosedGreedy(p, w, maxChunkSize);
  }

  /** The loop state after a word that joins the open chunk. */
  lemma StepExtends(p: Packing, words: seq<string>, w: string, maxChunkSize: int)
    requires PackingInvariant(p, words, maxChunkSize)
    requires !(p.length + |w| + 1 > maxChunkSize && p.current != [])
    ensures PackingInvariant(Step(p, w, maxChunkSize), words + [w], maxChunkSize)
  {
    assert Step(p, w, maxChunkSize) == Extended(p, w);
    ExtendedPartitions(p, words, w);
    ExtendedWithinLimit(p, w, maxChunkSize);
    ExtendedGreedy(p, w, maxChunkSize);
  }

  lemma {:induction false} PackAllInvariant(words: seq<string>, maxChunkSize: int)
    ensures PackingInvariant(PackAll(words, maxChunkSize), words, maxChunkSize)
    decreases |words|
  {
    if words != [] {
      var prefix, w := words[..|words| - 1], words[|words| - 1];
      assert prefix + [w] == words;
      PackAllInvariant(prefix, maxChunkSize);
      var p := PackAll(prefix, maxChunkSize);
      if p.length + |w| + 1 > maxChunkSize && p.current != [] {
        StepCloses(p, prefix, w, maxChunkSize);
      } else {
        StepExtends(p, prefix, w, maxChunkSize);
      }
    }
  }

  lemma FinishPartitions(p: Packing, words: seq<string>, maxChunkSize: int)
    requires Partitions(p, words) && WithinLimit(p, maxChunkSize)
    ensures Flatten(Finish(p)) == words
    ensures forall i | 0 <= i < |Finish(p)| :: Finish(p)[i] != []
    ensures Finish(p) == [] <==> words == []
  {
    var gs := Finish(p);
    if p.current != [] {
      FlattenAppend(p.closed, p.current);
      forall i | 0 <= i < |gs| ensures gs[i] != [] {
        if i < |p.closed| {
          assert gs[i] == p.closed[i];
        }
      }
    }
  }

  lemma FinishWithinLimit(p: Packing, maxChunkSize: int)
    requires WithinLimit(p, maxChunkSize)
    ensures forall i | 0 <= i < |Finish(p)| :: |Finish(p)[i]| >= 2 ==> Cost(Finish(p)[i]) <= maxChunkSize
  {
    var gs := Finish(p);
    forall i | 0 <= i < |gs| && |gs[i]| >= 2
      ensures Cost(gs[i]) <= maxChunkSize
    {
      if i < |p.closed| {
        assert gs[i] == p.closed[i];
      }
    }
  }

  lemma FinishGreedy(p: Packing, maxChunkSize: int)
    requires WithinLimit(p, maxChunkSize) && GreedyBreaks(p, maxChunkSize)
    ensures forall i | 0 < i < |Finish(p)| :: Finish(p)[i] != [] && Cost(Finish(p)[i - 1]) + |Finish(p)[i][0]| + 1 > maxChunkSize
  {
    var gs := Finish(p);
    forall i | 0 < i < |gs|
      ensures gs[i] != [] && Cost(gs[i - 1]) + |gs[i][0]| + 1 > maxChunkSize
    {
      if i < |p.closed| {
        assert gs[i - 1] == p.closed[i - 1] && gs[i] == p.closed[i];
      } else {
        assert gs[i - 1] == p.closed[|p.closed| - 1] && gs[i] == p.current;
      }
    }
  }

  /** `chunk_text` neither drops, splits nor reorders words, and no chunk is empty. */
  lemma GroupsPartitionWords(words: seq<string>, maxChunkSize: int)
    ensures Flatten(Groups(words, maxChunkSize)) == words
    ensures forall i | 0 <= i < |Groups(words, maxChunkSize)| :: Groups(words, maxChunkSize)[i] != []
    ensures Groups(words, maxChunkSize) == [] <==> words == []
  {
    PackAllInvariant(words, maxChunkSize);
    FinishPartitions(PackAll(words, maxChunkSize), words, maxChunkSize);
  }

  /** A chunk of two or more words stays within the limit; so a word too long
      for the limit always sits alone. */
  lemma GroupsWithinLimit(words: seq<string>, maxChunkSize: int)
    ensures forall i | 0 <= i < |Groups(words, maxChunkSize)| ::
      |Groups(words, maxChunkSize)[i]| >= 2 ==> Cost(Groups(words, maxChunkSize)[i]) <= maxChunkSize
  {
    PackAllInvariant(words, maxChunkSize);
    FinishWithinLimit(PackAll(words, maxChunkSize), maxChunkSize);
  }

  /** Greedy packing: a chunk is closed only when its next word would not fit. */
  lemma GroupsGreedy(words: seq<string>, maxChunkSize: int)
    ensures var gs := Groups(words, maxChunkSize);
      forall i | 0 < i < |gs| :: gs[i] != [] && Cost(gs[i - 1]) + |gs[i][0]| + 1 > maxChunkSize
  {
    PackAllInvariant(words, maxChunkSize);
    FinishGreedy(PackAll(words, maxChunkSize), maxChunkSize);
  }

  lemma GroupWordsAreWords(words: seq<string>, maxChunkSize: int, i: nat, j: nat)
    requires forall k | 0 <= k < |words| :: IsWord(words[k])
    requires i < |Groups(words, maxChunkSize)| && j < |Groups(words, maxChunkSize)[i]|
    ensures IsWord(Groups(words, maxChunkSize)[i][j])
  {
    GroupsPartitionWords(words, maxChunkSize);
    FlattenContains(Groups(words, maxChunkSize), i, j);
  }

  lemma {:induction false} FlattenContains(gs: seq<seq<string>>, i: nat, j: nat)
    requires i < |gs| && j < |gs[i]|
    ensures gs[i][j] in Flatten(gs)
    decreases |gs|
  {
    var init := gs[..|gs| - 1];
    if i < |gs| - 1 {
      assert init[i] == gs[i];
      FlattenContains(init, i, j);
    }
  }

  /** Each chunk, split again, gives exactly its group of words. */
  lemma ChunksResplit(text: string, maxChunkSize: int)
    ensures |Chunks(text, maxChunkSize)| == |Groups(Words(text), maxChunkSize)|
    ensures forall i | 0 <= i < |Chunks(text, maxChunkSize)| ::
      Words(Chunks(text, maxChunkSize)[i]) == Groups(Words(text), maxChunkSize)[i]
    ensures Chunks(text, maxChunkSize) == [] <==> IsBlank(text)
  {
    var words := Words(text);
    var gs := Groups(words, maxChunkSize);
    GroupsPartitionWords(words, maxChunkSize);
    forall i | 0 <= i < |gs| ensures Words(Join(" ", gs[i])) == gs[i] {
      forall j | 0 <= j < |gs[i]| ensures IsWord(gs[i][j]) {
        GroupWordsAreWords(words, maxChunkSize, i, j);
      }
      SplitJoinRoundTrip(gs[i]);
    }
  }

  /** One more word is one more `Step`. */
  lemma PackAllPrefix(words: seq<string>, i: nat, maxChunkSize: int)
    requires i < |words|
    ensures PackAll(words[..i + 1], maxChunkSize) == Step(PackAll(words[..i], maxChunkSize), words[i], maxChunkSize)
  {
    assert words[..i + 1][..i] == words[..i];
  }

  /** The loop of `chunk_text`, proved against `Chunks`. */
  method ChunkText(text: string, maxChunkSize: int) returns (chunks: seq<string>)
    ensures chunks == Chunks(text, maxChunkSize)
  {
    var words := Words(text);
    chunks := [];
    var currentChunk: seq<string> := [];
    var currentLength := 0;
    for i := 0 to |words|
      invariant var p := PackAll(words[..i], maxChunkSize);
        currentChunk == p.current && currentLength == p.length && chunks == Joined(p.closed)
    {
      ghost var p := PackAll(words[..i], maxChunkSize);
      PackAllPrefix(words, i, maxChunkSize);
      var word := words[i];
      var wordLength := |word| + 1;
      if currentLength + wordLength > maxChunkSize && currentChunk != [] {
        JoinedAppend(p.closed, p.current);
        chunks := chunks + [Join(" ", currentChunk)];
        currentChunk := [word];
        currentLength := wordLength;
      } else {
        currentChunk := currentChunk + [word];
        currentLength := currentLength + wordLength;
      }
    }
    assert words[..|words|] == words;
    ghost var p := PackAll(words, maxChunkSize);
    if currentChunk != [] {
      JoinedAppend(p.closed, p.current);
      chunks := chunks + [Join(" ", currentChunk)];
    }
  }

  const NoContentMessage := "No content to summarize."
  /** `len(text) < 8000` selects the single-prompt path; 8000 is also the chunk size. */
  const SinglePromptLimit := 8000

  function ShortPrompt(text: string, maxLength: int): string {
    "Summarize the following text in under " + IntToString(maxLength) + " words:\n\n" + text
  }

  function ChunkPrompt(chunk: string, part: nat, total: nat): string {
    "Summarize the following text (part " + NatToString(part) + " of " + NatToString(total) + "):\n\n" + chunk
  }

  function FinalPrompt(combined: string, maxLength: int): string {
    "Create a comprehensive summary in under " + IntToString(maxLength)
      + " words from these partial summaries:\n\n" + combined
  }

  /** A model reply, stripped, or the error text with the exception's message. */
  function Answer(reply: Result<string, string>, errorPrefix: string): (r: string)
    ensures reply.Failure? ==> errorPrefix <= r && r[|errorPrefix|..] == reply.error
    ensures reply.Success? ==> r == Trim(reply.value)
  {
    if reply.Success? then Trim(reply.value) else errorPrefix + reply.error
  }

  function ChunkErrorPrefix(part: nat): string {
    "Error summarizing chunk " + NatToString(part) + ": "
  }

  /** The prompts of the chunked path, one per chunk, numbered from 1. */
  function ChunkPrompts(chunks: seq<string>): (r: seq<string>)
    ensures |r| == |chunks|
  {
    seq(|chunks|, i requires 0 <= i < |chunks| => ChunkPrompt(chunks[i], i + 1, |chunks|))
  }

  /** Each chunk's summary, or its numbered error text. */
  function ChunkSummaries(chunks: seq<string>, llm: string -> Result<string, string>): (r: seq<string>)
    ensures |r| == |chunks|
  {
    seq(|chunks|, i requires 0 <= i < |chunks| =>
      Answer(llm(ChunkPrompt(chunks[i], i + 1, |chunks|)), ChunkErrorPrefix(i + 1)))
  }

  /** The loop over the chunks: one model call per chunk, in order. */
  method SummarizeChunks(chunks: seq<string>, llm: string -> Result<string, string>)
    returns (prompts: seq<string>, chunkSummaries: seq<string>)
    ensures prompts == ChunkPrompts(chunks)
    ensures chunkSummaries == ChunkSummaries(chunks, llm)
  {
    ghost var allPrompts, allSummaries := ChunkPrompts(chunks), ChunkSummaries(chunks, llm);
    prompts, chunkSummaries := [], [];
    for i := 0 to |chunks|
      invariant prompts == allPrompts[..i]
      invariant chunkSummaries == allSummaries[..i]
    {
      var prompt := ChunkPrompt(chunks[i], i + 1, |chunks|);
      assert allPrompts[..i + 1] == allPrompts[..i] + [prompt];
      assert allSummaries[..i + 1] == allSummaries[..i] + [Answer(llm(prompt), ChunkErrorPrefix(i + 1))];
      prompts := prompts + [prompt];
      chunkSummaries := chunkSummaries + [Answer(llm(prompt), ChunkErrorPrefix(i + 1))];
    }
    assert allPrompts[..|chunks|] == allPrompts;
    assert allSummaries[..|chunks|] == allSummaries;
  }

  /** `summarize_text(text, max_length)`. Returns the summary and, in order,
      the prompts the model was given. */
  method SummarizeText(text: string, maxLength: int, llm: string -> Result<string, string>)
    returns (summary: string, prompts: seq<string>)
    ensures IsBlank(text) ==> summary == NoContentMessage && prompts == []
    ensures !IsBlank(text) && |text| < SinglePromptLimit ==>
      prompts == [ShortPrompt(text, maxLength)]
      && summary == Answer(llm(prompts[0]), "Error summarizing text: ")
    ensures !IsBlank(text) && |text| >= SinglePromptLimit ==>
      var chunks := Chunks(text, SinglePromptLimit);
      && |chunks| >= 1
      && prompts == ChunkPrompts(chunks) + [FinalPrompt(Join("\n\n", ChunkSummaries(chunks, llm)), maxLength)]
      && summary == Answer(llm(prompts[|chunks|]), "Error creating final summary: ")
  {
    if Trim(text) == [] {
      return NoContentMessage, [];
    }
    if |text| < SinglePromptLimit {
      var prompt := ShortPrompt(text, maxLength);
      return Answer(llm(prompt), "Error summarizing text: "), [prompt];
    }
    var chunks := ChunkText(text, SinglePromptLimit);
    ChunksResplit(text, SinglePromptLimit);
    var chunkPrompts, chunkSummaries := SummarizeChunks(chunks, llm);
    var finalPrompt := FinalPrompt(Join("\n\n", chunkSummaries), maxLength);
    prompts := chunkPrompts + [finalPrompt];
    summary := Answer(llm(finalPrompt), "Error creating final summary: ");
  }
}
