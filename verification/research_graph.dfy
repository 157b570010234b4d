/** The research workflow graph (`workflows/research_graph.py`): four nodes,
    fixed edges fetch → summarize → critic, a conditional edge out of critic
    and persist → END. */
module ResearchGraph {
  import opened Wrappers
  import opened Nodes

  datatype Node = Fetch | Summarize | Critic | Persist | End

  /** The entry point. */
  const Entry := Fetch

  /** `critic_condition`: back to summarize only when the review's `ok` is
      present and false; a missing review or a missing `ok` means persist. */
  function CriticCondition(review: Option<ReviewEntry>): (r: Node)
    ensures r == Summarize || r == Persist
    ensures r == Summarize <==> review.Some? && review.value.ok == Some(false)
  {
    var ok := if review.Some? then review.value.ok.GetOr(true) else true;
    if !ok then Summarize else Persist
  }

  /** The node that follows `node` when the state is `state`; none after END. */
  function Next(node: Node, state: GraphState): (r: Option<Node>)
    ensures r.None? <==> node == End
  {
    match node
    case Fetch => Some(Summarize)
    case Summarize => Some(Critic)
    case Critic => Some(CriticCondition(state.criticReview))
    case Persist => Some(End)
    case End => None
  }

  /** The fixed edges, and the only two ways out of critic. */
  lemma Edges(state: GraphState)
    ensures Next(Fetch, state) == Some(Summarize)
    ensures Next(Summarize, state) == Some(Critic)
    ensures Next(Critic, state) in {Some(Summarize), Some(Persist)}
    ensures Next(Persist, state) == Some(End)
  {
  }

  /** END is reached only from persist, and persist only from critic. */
  lemma Predecessors(node: Node, state: GraphState)
    ensures Next(node, state) == Some(End) <==> node == Persist
    ensures Next(node, state) == Some(Persist) ==> node == Critic
    ensures Next(node, state) == Some(Summarize) <==>
      node == Fetch || (node == Critic && state.criticReview.Some? && state.criticReview.value.ok == Some(false))
  {
  }

  /** The initial state: the user and the query, no session id yet, nothing else. */
  function InitialState(userId: int, query: string): (r: GraphState)
    ensures r.userId == userId && r.query == query && r.sessionId.None?
    ensures r.retrievedDocs.None? && r.summary.None? && r.criticReview.None?
    ensures r.saved.None? && r.error.None?
  {
    GraphState(userId, query, None, None, None, None, None, None)
  }

  function Rank(node: Node): nat {
    match node
    case Fetch => 3
    case Summarize => 2
    case Critic => 1
    case Persist => 1
    case End => 0
  }

  /** The nodes a run visits from `node`, when the critic's successive
      reviews are `reviews`; the run stops at END or when they run out. */
  function Run(node: Node, reviews: seq<Option<ReviewEntry>>): seq<Node>
    decreases |reviews|, Rank(node)
  {
    match node
    case End => [End]
    case Critic =>
      if reviews == [] then [Critic]
      else [Critic] + Run(CriticCondition(reviews[0]), reviews[1..])
    case Fetch => [Fetch] + Run(Summarize, reviews)
    case Summarize => [Summarize] + Run(Critic, reviews)
    case Persist => [Persist] + Run(End, reviews)
  }

  predicate Rejects(review: Option<ReviewEntry>) {
    review.Some? && review.value.ok == Some(false)
  }

  /** `n` rounds of summarize → critic. */
  function Rounds(n: nat): (r: seq<Node>)
    ensures |r| == 2 * n
  {
    if n == 0 then [] else [Summarize, Critic] + Rounds(n - 1)
  }

  /** From summarize, with the first accepted review at index `k`: k + 1
      rounds, then persist and END. */
  lemma {:induction false} RunFromSummarize(reviews: seq<Option<ReviewEntry>>, k: nat)
    requires k < |reviews| && !Rejects(reviews[k])
    requires forall j | 0 <= j < k :: Rejects(reviews[j])
    ensures Run(Summarize, reviews) == Rounds(k + 1) + [Persist, End]
    decreases k
  {
    var rest := reviews[1..];
    assert Run(Summarize, reviews) == [Summarize, Critic] + Run(CriticCondition(reviews[0]), rest);
    if k == 0 {
      assert Run(Persist, rest) == [Persist, End];
    } else {
      assert forall j | 0 <= j < k - 1 :: Rejects(rest[j]) by {
        forall j | 0 <= j < k - 1 ensures Rejects(rest[j]) {
          assert rest[j] == reviews[j + 1];
        }
      }
      assert rest[k - 1] == reviews[k];
      RunFromSummarize(rest, k - 1);
      assert Rounds(k + 1) == [Summarize, Critic] + Rounds(k);
    }
  }

  /** A full run: fetch, one summarize → critic round per review up to and
      including the first that does not reject, then persist and END. */
  lemma RunToEnd(reviews: seq<Option<ReviewEntry>>, k: nat)
    requires k < |reviews| && !Rejects(reviews[k])
    requires forall j | 0 <= j < k :: Rejects(reviews[j])
    ensures Run(Entry, reviews) == [Fetch] + Rounds(k + 1) + [Persist, End]
  {
    RunFromSummarize(reviews, k);
  }

  /** While every review rejects, the run from summarize is one round per
      review and then one more summarize → critic waiting for a review. */
  lemma {:induction false} RejectedRounds(reviews: seq<Option<ReviewEntry>>)
    requires forall j | 0 <= j < |reviews| :: Rejects(reviews[j])
    ensures Run(Summarize, reviews) == Rounds(|reviews|) + [Summarize, Critic]
    decreases |reviews|
  {
    if reviews == [] {
      assert Run(Summarize, reviews) == [Summarize, Critic];
    } else {
      var rest := reviews[1..];
      assert forall j | 0 <= j < |rest| :: Rejects(rest[j]) by {
        forall j | 0 <= j < |rest| ensures Rejects(rest[j]) {
          assert rest[j] == reviews[j + 1];
        }
      }
      RejectedRounds(rest);
      assert Run(Summarize, reviews) == [Summarize, Critic] + Run(Summarize, rest);
      assert Rounds(|reviews|) == [Summarize, Critic] + Rounds(|rest|);
    }
  }

  /** While every review rejects, persist and END are never reached. */
  lemma RejectedRunNeverPersists(reviews: seq<Option<ReviewEntry>>)
    requires forall j | 0 <= j < |reviews| :: Rejects(reviews[j])
    ensures Persist !in Run(Entry, reviews) && End !in Run(Entry, reviews)
  {
    RejectedRounds(reviews);
    NoPersistInRounds(|reviews|);
    assert Run(Entry, reviews) == [Fetch] + (Rounds(|reviews|) + [Summarize, Critic]);
  }

  lemma {:induction false} NoPersistInRounds(n: nat)
    ensures Persist !in Rounds(n) && End !in Rounds(n) && Fetch !in Rounds(n)
  {
    if n > 0 {
      NoPersistInRounds(n - 1);
    }
  }
}
