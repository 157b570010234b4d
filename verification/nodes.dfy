/** The four workflow nodes (`workflows/nodes.py`). Each takes the workflow
    state and returns it with its own keys added or overwritten. Retrieval,
    summarisation and the database writes are parameters. */
module Nodes {
  import opened Wrappers
  import opened Text
  import Agents

  /** A source's retrieved content: a list of documents or one value. */
  datatype DocContent = Items(items: seq<string>) | Scalar(text: string)

  /** `retrieved_docs`: the sources in insertion order with their content. */
  type Docs = seq<(string, DocContent)>

  /** A `critic_review` entry; either key may be missing. */
  datatype ReviewEntry = ReviewEntry(ok: Option<bool>, reason: Option<string>)

  /** The workflow state dictionary. `None` is a key that is absent. The
      database handle is left out. */
  datatype GraphState = GraphState(
    userId: int,
    query: string,
    sessionId: Option<int>,
    retrievedDocs: Option<Docs>,
    summary: Option<string>,
    criticReview: Option<ReviewEntry>,
    saved: Option<bool>,
    error: Option<string>)

  const RetrievalErrorPrefix := "Failed to retrieve documents: "

  /** `fetch_papers_node`: the retriever's result, or a one-entry `error` dict. */
  function FetchPapersNode(state: GraphState, retrieved: Result<Docs, string>): (r: GraphState)
    ensures r == state.(retrievedDocs := r.retrievedDocs)
    ensures retrieved.Success? ==> r.retrievedDocs == Some(retrieved.value)
    ensures retrieved.Failure? ==>
      r.retrievedDocs == Some([("error", Scalar(RetrievalErrorPrefix + retrieved.error))])
  {
    match retrieved
    case Success(docs) => state.(retrievedDocs := Some(docs))
    case Failure(e) => state.(retrievedDocs := Some([("error", Scalar(RetrievalErrorPrefix + e))]))
  }

  /** The line that introduces a source in the combined text. */
  function Header(source: string): (r: string)
    ensures '-' in r
  {
    assert ("\n--- " + ToUpper(source) + " ---\n")[1] == '-';
    "\n--- " + ToUpper(source) + " ---\n"
  }

  /** One source's part of the combined text. */
  function Section(source: string, content: DocContent): (r: string)
    ensures Header(source) <= r
  {
    Header(source) + match content
      case Items(items) => Join("\n", items)
      case Scalar(text) => text
  }

  /** The text handed to the summariser: every source's section, in order. */
  function CombinedText(docs: Docs): string {
    if docs == [] then "" else CombinedText(docs[..|docs| - 1]) + Section(docs[|docs| - 1].0, docs[|docs| - 1].1)
  }

  /** `CombinedText` of a prefix one document longer. */
  lemma CombinedTextStep(docs: Docs, i: nat)
    requires i < |docs|
    ensures CombinedText(docs[..i + 1]) == CombinedText(docs[..i]) + Section(docs[i].0, docs[i].1)
  {
    assert docs[..i + 1][..i] == docs[..i];
  }

  /** The loop of `summarize_node` that assembles the combined text. */
  method CombineDocs(docs: Docs) returns (combined: string)
    ensures combined == CombinedText(docs)
  {
    combined := "";
    for i := 0 to |docs|
      invariant combined == CombinedText(docs[..i])
    {
      CombinedTextStep(docs, i);
      var (source, content) := docs[i];
      ghost var before := combined;
      combined := combined + Header(source);
      match content {
        case Items(items) => combined := combined + Join("\n", items);
        case Scalar(text) => combined := combined + text;
      }
      assert combined == before + Section(source, content);
    }
    assert docs[..|docs|] == docs;
  }

  /** Every source contributes a non-blank header, so the combined text is
      blank exactly when no documents were retrieved. */
  lemma {:induction false} CombinedBlankIffNoDocs(docs: Docs)
    ensures IsBlank(CombinedText(docs)) <==> docs == []
  {
    if docs != [] {
      var last := docs[|docs| - 1];
      var section := Section(last.0, last.1);
      var head := Header(last.0);
      var k :| 0 <= k < |head| && head[k] == '-';
      var prefix := CombinedText(docs[..|docs| - 1]);
      assert CombinedText(docs)[|prefix| + k] == section[k] == '-';
    }
  }

  const NoContentFound := "No content found to summarize."
  const SummaryErrorPrefix := "Error generating summary: "

  /** `summarize_node`. `summarize` is the summariser agent; `inputs` lists
      the texts it was called with. */
  method SummarizeNode(state: GraphState, summarize: string -> Result<string, string>)
    returns (r: GraphState, inputs: seq<string>)
    ensures r == state.(summary := r.summary)
    ensures var docs := state.retrievedDocs.GetOr([]);
      && (docs == [] ==> r.summary == Some(NoContentFound) && inputs == [])
      && (docs != [] ==> inputs == [CombinedText(docs)] && r.summary == Some(
            match summarize(inputs[0])
            case Success(s) => s
            case Failure(e) => SummaryErrorPrefix + e))
  {
    var docs := state.retrievedDocs.GetOr([]);
    var combined := CombineDocs(docs);
    CombinedBlankIffNoDocs(docs);
    var summary;
    if Trim(combined) != [] {
      inputs := [combined];
      match summarize(combined) {
        case Success(s) => summary := s;
        case Failure(e) => summary := SummaryErrorPrefix + e;
      }
    } else {
      inputs := [];
      summary := NoContentFound;
    }
    r := state.(summary := Some(summary));
  }

  /** `critic_node`: the critic's verdict on the summary (missing: ""). */
  function CriticNode(state: GraphState): (r: GraphState)
    ensures r == state.(criticReview := r.criticReview)
    ensures var ok := !Contains(ToLower(state.summary.GetOr("")), Agents.NonsensePhrase);
      r.criticReview == Some(ReviewEntry(Some(ok), Some(if ok then Agents.FineReason else Agents.HallucinationReason)))
  {
    var review := Agents.CriticRun(state.summary.GetOr(""));
    state.(criticReview := Some(ReviewEntry(Some(review.ok), Some(review.reason))))
  }

  /** A write of the persistence service. */
  datatype Write =
    | SaveMessage(sessionId: Option<int>, content: string, role: string)
    | SaveSummary(sessionId: Option<int>, summary: string)

  /** The writes `persistence_node` attempts, in order: the user's query,
      then the summary as an assistant message and as a summary row. */
  function PlannedWrites(state: GraphState): (r: seq<Write>)
    ensures |r| == (if state.summary.Some? then 3 else 1)
    ensures r[0] == SaveMessage(state.sessionId, state.query, "user")
    ensures state.summary.Some? ==>
      r[1] == SaveMessage(state.sessionId, state.summary.value, "assistant")
      && r[2] == SaveSummary(state.sessionId, state.summary.value)
  {
    [SaveMessage(state.sessionId, state.query, "user")]
      + match state.summary
        case None => []
        case Some(s) => [SaveMessage(state.sessionId, s, "assistant"), SaveSummary(state.sessionId, s)]
  }

  const SaveErrorPrefix := "Failed to save: "

  /** `persistence_node`. The write numbered `failAt` (from 0), if any,
      raises `failure`; `done` lists the writes that completed. */
  method PersistenceNode(state: GraphState, failAt: Option<nat>, failure: string)
    returns (r: GraphState, done: seq<Write>)
    ensures done <= PlannedWrites(state)
    ensures r.saved == Some(true) <==> done == PlannedWrites(state)
    ensures r.saved == Some(true) ==> r == state.(saved := Some(true))
    ensures r.saved != Some(true) ==>
      && failAt.Some? && failAt.value < |PlannedWrites(state)|
      && done == PlannedWrites(state)[..failAt.value]
      && r == state.(saved := Some(false), error := Some(SaveErrorPrefix + failure))
  {
    var failed := state.(saved := Some(false), error := Some(SaveErrorPrefix + failure));
    done := [];
    if failAt == Some(0) {
      return failed, done;
    }
    done := done + [SaveMessage(state.sessionId, state.query, "user")];
    if state.summary.Some? {
      if failAt == Some(1) {
        return failed, done;
      }
      done := done + [SaveMessage(state.sessionId, state.summary.value, "assistant")];
      if failAt == Some(2) {
        return failed, done;
      }
      done := done + [SaveSummary(state.sessionId, state.summary.value)];
    }
    r := state.(saved := Some(true));
  }
}
