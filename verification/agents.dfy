/** The three agents of the research workflow (`workflows/agents.py`). The
    retriever and the summariser only forward to services outside this
    model; the critic is a substring test. */
module Agents {
  import opened Wrappers
  import opened Text
  import Summarizer

  /** The sources the retriever agent queries unless told otherwise. */
  const DefaultSources: seq<string> := ["arxiv", "wikipedia"]

  /** `RetrieverAgent.run(query, sources)`: the retrieval service, given the
      sources (or the default ones) unchanged. */
  function RetrieverRun<R>(query: string, sources: seq<string>, sourcesGiven: bool,
                           retrieve: (string, seq<string>) -> R): (r: R)
    ensures !sourcesGiven ==> r == retrieve(query, ["arxiv", "wikipedia"])
    ensures sourcesGiven ==> r == retrieve(query, sources)
  {
    retrieve(query, if sourcesGiven then sources else DefaultSources)
  }

  /** The word limit `summarize_text` uses when no `max_length` is given. */
  const DefaultSummaryLength := 200

  /** `SummarizerAgent.run(text)`: `summarize_text` with its default limit of
      200 words, so every prompt that asks for a length asks for 200. */
  method SummarizerRun(text: string, llm: string -> Result<string, string>)
    returns (summary: string, prompts: seq<string>)
    ensures IsBlank(text) ==> summary == Summarizer.NoContentMessage && prompts == []
    ensures !IsBlank(text) && |text| < Summarizer.SinglePromptLimit ==>
      prompts == [Summarizer.ShortPrompt(text, 200)]
      && summary == Summarizer.Answer(llm(prompts[0]), "Error summarizing text: ")
    ensures !IsBlank(text) && |text| >= Summarizer.SinglePromptLimit ==>
      var chunks := Summarizer.Chunks(text, Summarizer.SinglePromptLimit);
      && prompts == Summarizer.ChunkPrompts(chunks)
                    + [Summarizer.FinalPrompt(Join("\n\n", Summarizer.ChunkSummaries(chunks, llm)), 200)]
      && summary == Summarizer.Answer(llm(prompts[|chunks|]), "Error creating final summary: ")
  {
    summary, prompts := Summarizer.SummarizeText(text, DefaultSummaryLength, llm);
  }

  /** The critic's verdict: `{"ok": ..., "reason": ...}`. */
  datatype Review = Review(ok: bool, reason: string)

  const NonsensePhrase := "lorem ipsum"
  const HallucinationReason := "Hallucination detected (nonsense text)"
  const FineReason := "Looks fine"

  /** `CriticAgent.run(text)`: rejects text containing "lorem ipsum" in any letter case. */
  function CriticRun(text: string): (r: Review)
    ensures !r.ok <==> Contains(ToLower(text), NonsensePhrase)
    ensures r.reason == (if r.ok then FineReason else HallucinationReason)
  {
    if Contains(ToLower(text), NonsensePhrase) then Review(false, HallucinationReason)
    else Review(true, FineReason)
  }

  lemma LowerOfUpper(text: string)
    ensures ToLower(ToUpper(text)) == ToLower(text)
  {
  }

  /** The verdict does not depend on letter case. */
  lemma CriticIgnoresCase(text: string)
    ensures CriticRun(ToUpper(text)) == CriticRun(text)
    ensures CriticRun(ToLower(text)) == CriticRun(text)
  {
    LowerOfUpper(text);
    ToLowerIdempotent(text);
  }

  /** The critic rejects exactly the texts in which "lorem ipsum" occurs
      somewhere, in any letter case. */
  lemma CriticRejectsOccurrences(text: string)
    ensures !CriticRun(text).ok <==> exists i :: OccursAt(ToLower(text), NonsensePhrase, i)
  {
    ContainsIffOccurs(ToLower(text), NonsensePhrase);
  }

  /** Upper-case "LOREM IPSUM" is rejected, wherever it stands. */
  lemma CriticRejectsUpperCase(prefix: string, suffix: string)
    ensures CriticRun(prefix + "LOREM IPSUM" + suffix) == Review(false, HallucinationReason)
  {
    var lower := ToLower(prefix + "LOREM IPSUM" + suffix);
    assert lower[|prefix|..|prefix| + 11] == NonsensePhrase;
    ContainsOccurrence(lower, NonsensePhrase, |prefix|);
  }
}
