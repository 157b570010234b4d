# AI Research Agent — a verified Dafny model of its core logic

The AI Research Agent is a small research assistant made of three parts:

- a React client;
- a Streamlit client;
- a FastAPI backend whose LangGraph workflow retrieves documents, summarises
  them with a language model, has a critic check the summary and stores the
  conversation.

This project models the logic that decides behaviour in those parts and proves
what each part promises. HTTP, the database, the language model, timers and
rendering are not executed. Each of them becomes a parameter, such as the reply
a request would get, or an outcome per call.

Modules follow the source files:

| module (file) | source |
|---|---|
| `UseResearch` (use_research.dfy) | the React session-state hook: history, selection, loading/submitting/error flags |
| `Api` (api.dfy) | the React HTTP adapter: error-message mapping, request guards, defaults |
| `Helpers` (helpers.dfy) | truncation, character counter, input validation, `safeAsync` |
| `ChatContainer`, `MessageBubble` | message order, view precedence, role → sender |
| `UserSettings` | the locally stored user list: create, delete, current user |
| `App` | the query forms, the progress overlay, the sidebar actions |
| `StreamlitApp` | the Streamlit client's state, selection fallback, sort, role display, summary pane, form |
| `Summarizer` | the greedy word packer `chunk_text` and `summarize_text` |
| `Retry` | the retry decorator with exponential backoff |
| `Agents`, `Nodes`, `ResearchGraph` | the critic predicate, the workflow nodes, the graph's routing |
| `RoutesHistory` | `GET /history/{user_id}`: get-or-create user, newest-first sessions, defaults |
| `Wrappers`, `Text`, `Sorting`, `Sessions` | shared option/result types, ASCII string helpers, a stable insertion sort, the session/message records the clients read |

Key modelling choices:

- Mutable state (the React hook, the App form, the user registry, the Streamlit
  session state, the users table) is a class.
  - Its methods carry `modifies` frames.
  - The React hook records its calls into `services/api.js` in a `calls`
    field, and the Streamlit state records the HTTP requests it sends in a
    `requests` field, so that "no request is made" can be stated.
  - A history fetch reaches the hook as what `getHistory` resolves with, or
    the message it rejects with. A post reaches it as the transport's reply,
    which `Api.PostChat` turns into what `postChat` resolves or rejects with;
    the guards, the trimming and the interceptor's messages are proved in `Api`.
- JavaScript's `length` counts UTF-16 code units, so a character above U+FFFF
  counts twice. Every JavaScript length limit uses `Text.Utf16Length`; the
  Python code counts characters, which is `|s|`.
- Loops in the source are loops here, each proved against a specification
  function:
  - the `chunk_text` packer;
  - the chunk-summary loop;
  - the retry loop;
  - the combined-text loop;
  - the history serialisation's nested loops;
  - the Streamlit searches;
  - the progress interval.
- JavaScript truthiness of a session id is `Truthy`: present and not 0. The
  Streamlit client tests `is None` instead.

## Model

| member | source | states |
|---|---|---|
| Text.Utf16LengthInBmp | Frontend/src/services/api.js:90 | inside the Basic Multilingual Plane JavaScript's `length` is the number of characters |
| Text.AllAstralLength | Frontend/src/services/api.js:90 | text of characters above U+FFFF has twice as many code units as characters |
| Text.Utf16Prefix | Frontend/src/utils/helpers.js:32 | `substring(0, n)` for a cut between characters: the longest prefix of at most `n` code units |
| Text.Utf16PrefixInBmp | Frontend/src/utils/helpers.js:32 | inside the Basic Multilingual Plane the cut is after `n` characters |
| Sessions.FindSession | Frontend/src/hooks/useResearch.js:19 | the session at the least index carrying the id, or none exactly when no session has it |
| UseResearch.ResolveWithoutPreference | Frontend/src/hooks/useResearch.js:44-51 | with no truthy preferred id: a truthy resulting selection is present in the new list; a non-empty list always yields a selection; an empty list clears a truthy selection and keeps a falsy one |
| UseResearch.ResolveIdempotent | Frontend/src/hooks/useResearch.js:46-51 | re-resolving with no preference against the same list changes nothing |
| UseResearch.ResearchState.constructor | Frontend/src/hooks/useResearch.js:11-16 | initial state: default user, empty history, no selection, all flags off, no error |
| UseResearch.ResearchState.SelectedSession | Frontend/src/hooks/useResearch.js:19 | the history entry at the least index carrying the selected id; none exactly when nothing is selected or no entry has the id |
| UseResearch.ResearchState.ClearError | Frontend/src/hooks/useResearch.js:24-26 | error becomes null |
| UseResearch.ResearchState.RefreshHistory | Frontend/src/hooks/useResearch.js:31-55 | `Refreshed`: one `getHistory` call; loading ends false; error set iff the fetch was rejected, to its message, with history emptied and selection untouched; on success the error is cleared, history is the data and the selection follows the preference rule |
| UseResearch.ResearchState.SubmitQuery | Frontend/src/hooks/useResearch.js:60-82 | missing or blank query: the "Please enter a research query." error, null result, no call, nothing else changes; otherwise `Submitted`: one `postChat` call with the query as given and submitting ends false; the post settles as `postChat` does, so a query over 1000 UTF-16 units fails with the length message and no history call; a rejected post leaves its message as the error with history, selection and loading untouched; a successful one is followed by a refresh preferring the new session id (its error, history and selection as in `Refreshed`), and its reply is returned |
| UseResearch.ResearchState.SelectSession | Frontend/src/hooks/useResearch.js:87-90 | selection set to the id and error cleared |
| UseResearch.ResearchState.UpdateUserId | Frontend/src/hooks/useResearch.js:95-102 | same id changes nothing; a new id empties history, clears selection and error |
| UseResearch.ResearchState.SwitchUser | Frontend/src/hooks/useResearch.js:95-107 | the same id changes nothing; a new id followed by the effect's refresh: one `getHistory` call for the new user, error iff the fetch failed, and the selection is the first session of the new list or none |
| Api.ErrorMessage | Frontend/src/services/api.js:35-60 | every transport error maps to a non-empty message; ECONNABORTED always gives the timeout text |
| Api.DetailTakesPrecedence | Frontend/src/services/api.js:44-54 | a non-empty `detail` is shown, followed by the status in parentheses |
| Api.StatusTextWithoutDetail | Frontend/src/services/api.js:42-52 | without detail: ≥500, 404, 400 and other statuses pick their texts |
| Api.MessageWithoutResponse | Frontend/src/services/api.js:55-60 | no response: unreachable text if a request went out, else the error's own message, else the generic text |
| Api.StatusRecoverable | Frontend/src/services/api.js:54 | the status code can be read back from the end of the message, whatever the text before it |
| Api.NormalizeError | Frontend/src/services/api.js:73-76 | calls succeed with the reply unchanged or fail with the interceptor's message |
| Api.GetHistory | Frontend/src/services/api.js:69-77 | a null body becomes [], other bodies pass through, failures carry the mapped message |
| Api.PostChat | Frontend/src/services/api.js:85-105 | nothing is sent iff the query is missing, blank or longer than 1000 UTF-16 code units before trimming; the sent text is the non-empty trimmed query and the reply passes through the interceptor; the two refusal messages |
| Api.PostChatVisible | Frontend/src/services/api.js:85-105 | a query with visible text is either refused as too long or sent trimmed, with the reply's outcome passed on |
| Api.QueryLengthBoundary | Frontend/src/services/api.js:90-92 | 1000 code units are sent, 1001 are refused |
| Api.QueryLimitInCharacters | Frontend/src/services/api.js:90-92 | inside the Basic Multilingual Plane the limit is 1000 characters; 501 characters above U+FFFF are already refused |
| Api.StripTrailingSlash | Frontend/src/services/api.js:7 | exactly one trailing slash is removed, if there is one |
| Helpers.TruncateText | Frontend/src/utils/helpers.js:30-33 | short (by UTF-16 length), empty or missing text is returned as is; longer text becomes a proper prefix of at most `length` code units, as long as the next character does not fit, plus "..." |
| Helpers.TruncateInBmp | Frontend/src/utils/helpers.js:30-33 | inside the Basic Multilingual Plane the kept prefix is exactly the first `length` characters |
| Helpers.GetCharacterCount | Frontend/src/utils/helpers.js:102-122 | the count is the UTF-16 length; over-limit flag; red iff over the limit, orange iff above 80 %, green iff non-empty otherwise, gray iff empty |
| Helpers.ValidateInput | Frontend/src/utils/helpers.js:64-94 | the errors are the failed checks in order (required, min, max, pattern), lengths in UTF-16 units; valid iff there are none |
| Helpers.EmptyInputOnlyRequired | Frontend/src/utils/helpers.js:74-88 | an empty or missing input can fail only the required check |
| Helpers.BlankRequiredInput | Frontend/src/utils/helpers.js:74-76 | a blank required input reports the required error first |
| Helpers.SafeAsync | Frontend/src/utils/helpers.js:144-151 | `[null, result]` on success, `[error, null]` on failure |
| Helpers.SafeAsyncRoundTrip | Frontend/src/utils/helpers.js:144-151 | the pair loses nothing: the outcome can be rebuilt from it |
| Sorting.SortBy | Frontend/src/components/chat/ChatContainer.jsx:99-103 | the output is a permutation of the input, sorted by the order |
| Sorting.SortByStable | Frontend/src/components/chat/ChatContainer.jsx:99-103 | elements that compare equal keep their relative order |
| ChatContainer.SortMessages | Frontend/src/components/chat/ChatContainer.jsx:99-103 | permutation, ascending by timestamp (missing = epoch 0), stable |
| ChatContainer.CountLabel | Frontend/src/components/chat/ChatContainer.jsx:115 | "1 message", otherwise "n messages" |
| ChatContainer.Render | Frontend/src/components/chat/ChatContainer.jsx:19-96 | each view exactly when its branch is reached: loading wins over error, error over "no session", then the empty session (with its id), then the conversation with its id, count label and the messages in `SortMessages` order |
| MessageBubble.GetMessageConfig | Frontend/src/components/chat/MessageBubble.jsx:14-44 | "user" gives You, "system" gives System, anything else or no role gives AI Assistant, ignoring case |
| MessageBubble.GetMessageConfigIgnoresCase | Frontend/src/components/chat/MessageBubble.jsx:15 | the sender depends only on the lower-cased role |
| MessageBubble.ShowsTimestamp | Frontend/src/components/chat/MessageBubble.jsx:61-65 | the timestamp is shown iff present and non-empty |
| UserSettings.MaxId | Frontend/src/components/sidebar/UserSettings.jsx:32 | at least 0 and every id, and equal to 0 or to some id |
| UserSettings.RemoveId | Frontend/src/components/sidebar/UserSettings.jsx:53 | a user is kept iff it was stored and has another id |
| UserSettings.RemoveIdCounts | Frontend/src/components/sidebar/UserSettings.jsx:53 | each kept user occurs as often as before, each removed one not at all |
| UserSettings.RemoveIdAppend | Frontend/src/components/sidebar/UserSettings.jsx:53 | the kept users stay in their order: removal distributes over concatenation |
| UserSettings.RemoveAbsentId | Frontend/src/components/sidebar/UserSettings.jsx:53 | removing an absent id changes nothing |
| UserSettings.RemoveIdUnique | Frontend/src/components/sidebar/UserSettings.jsx:50-53 | with unique ids at most one user goes |
| UserSettings.RemoveIdKeepsUnique | Frontend/src/components/sidebar/UserSettings.jsx:53 | removal keeps ids unique |
| UserSettings.UserRegistry.constructor | Frontend/src/components/sidebar/UserSettings.jsx:14-21 | saved users, or the single default user 1; empty form |
| UserSettings.UserRegistry.SaveUsers | Frontend/src/components/sidebar/UserSettings.jsx:24-27 | state and storage both hold the list |
| UserSettings.UserRegistry.CreateNewUser | Frontend/src/components/sidebar/UserSettings.jsx:29-48 | blank name: nothing changes; otherwise the trimmed name is appended under the id max(ids, 0) + 1, which is above all others, becomes current, the form resets, and unique ids stay unique |
| UserSettings.UserRegistry.DeleteUser | Frontend/src/components/sidebar/UserSettings.jsx:50-60 | refused iff at most one user; deleting the current user switches to the first remaining one; the crash keeps the current id; with unique ids it never crashes and keeps ids unique |
| UserSettings.UserRegistry.CurrentUser | Frontend/src/components/sidebar/UserSettings.jsx:62 | the first user with the current id, else the first stored user |
| UserSettings.FirstWithId | Frontend/src/components/sidebar/UserSettings.jsx:62 | the first user (lowest index) with the id, else the first of the fallback list |
| App.CanSubmit | Frontend/src/App.jsx:51-57 | a submission proceeds iff the text is non-blank, at most 1000 UTF-16 code units, and nothing is submitting |
| App.CanSubmitPassesPostChat | Frontend/src/App.jsx:57 | whatever the form lets through, `postChat` sends, trimmed, and settles as the reply through the interceptor |
| App.ProgressTick | Frontend/src/App.jsx:71-77 | the counter advances to the last step and stays there |
| App.StepStatusOf | Frontend/src/App.jsx:151-160 | completed before the counter, active at it, pending after |
| App.FormCounterColor | Frontend/src/App.jsx:378-381 | red over the limit, orange above 80 %, green otherwise, on the UTF-16 count |
| App.FormColorAgreesWithHelper | Frontend/src/App.jsx:332-335 | the forms' colour is the helper's, except an empty field is green rather than gray |
| App.AppForm.constructor | Frontend/src/App.jsx:44-47 | empty fields, overlay hidden, counter 0 |
| App.AppForm.HandleSubmitQuery | Frontend/src/App.jsx:55-99 | refused by the `CanSubmit` guard: nothing changes, in the form or in the hook; otherwise the overlay shows, the hook ends as `Submitted`, with one `postChat` call for the raw field text plus a `getHistory` call iff the reply succeeded, the interceptor's message as the error on failure; success clears the field and sets the counter to 4, failure leaves the field and the counter at min(n, 3) |
| App.AppForm.Submit | Frontend/src/App.jsx:59-98 | past the guard: the overlay shows; the hook ends as `Submitted` (error, history, selection, loading, calls); the post succeeds iff the reply does, a failure shows the interceptor's message; success clears the field and sets the counter to 4, failure leaves the field and the counter at min(n, 3) |
| App.AppForm.AdvanceProgress | Frontend/src/App.jsx:60-78 | n firings of the interval from a fresh counter leave it at min(n, 3) |
| App.AppForm.HideProgress | Frontend/src/App.jsx:94-97 | the overlay is hidden and the counter reset |
| App.AppForm.HandleFollowUp | Frontend/src/App.jsx:102-114 | refused by the guard: nothing changes; otherwise the hook ends as `Submitted` with the calls and error stated as for the main form, and the field clears only on success |
| App.AppForm.HandleRefresh | Frontend/src/App.jsx:117-119 | the hook ends as `Refreshed` with the current selection preferred (one `getHistory` call, loading, error and history given); on success a truthy selection survives and a falsy one resolves without preference |
| App.AppForm.HandleClear | Frontend/src/App.jsx:121-123 | selection and error cleared |
| StreamlitApp.RStripSlashes | Frontend/streamlit_app.py:44-45 | a prefix of the input with no trailing slash, dropping only slashes |
| StreamlitApp.ApiBaseStripsAllSlashes | Frontend/streamlit_app.py:45 | stripping leaves nothing for the React rule to remove; "h//" gives "h" here but "h/" in the React client |
| StreamlitApp.StrLeqTotal | Frontend/streamlit_app.py:163 | string comparison relates every pair |
| StreamlitApp.StrLeqTransitive | Frontend/streamlit_app.py:163 | string comparison is transitive |
| StreamlitApp.SortMessages | Frontend/streamlit_app.py:163 | permutation, ascending by timestamp string (missing = ""), stable |
| StreamlitApp.DisplayRole | Frontend/streamlit_app.py:166-174 | a role that lower-cases to user, retriever or critic shows the capitalised lower-case name whatever the case it was written in, user alone in the user bubble; any other role, and a missing one, shows "Assistant" |
| StreamlitApp.LastAssistantIndex | Frontend/streamlit_app.py:187-191 | the last message whose role is exactly "assistant"; none iff there is no such message |
| StreamlitApp.LastAssistantContent | Frontend/streamlit_app.py:187-191 | the content of that message, or none |
| StreamlitApp.FindSelected | Frontend/streamlit_app.py:148-152 | the first session with the selected id, none when nothing is selected |
| StreamlitApp.StreamlitState.constructor | Frontend/streamlit_app.py:32-41 | the session-state defaults |
| StreamlitApp.StreamlitState.ApiBase | Frontend/streamlit_app.py:44-45 | a prefix of the configured URL without a trailing slash, and only slashes were dropped |
| StreamlitApp.StreamlitState.RefreshHistoryAndSelect | Frontend/streamlit_app.py:71-81 | history is the fetched list, or [] on failure; an explicit id is selected unconditionally; otherwise the first session, or none |
| StreamlitApp.StreamlitState.LoadIfEmpty | Frontend/streamlit_app.py:103-104 | a fetch happens only when history is empty, and then history is the list (or []) and the selection its first session or none |
| StreamlitApp.StreamlitState.RefreshButton | Frontend/streamlit_app.py:94-95 | one history request; history is the list (or []); an existing selection is kept, an absent one becomes the first session or none |
| StreamlitApp.StreamlitState.SelectSession | Frontend/streamlit_app.py:114-116 | the clicked session is selected |
| StreamlitApp.StreamlitState.ClearSelection | Frontend/streamlit_app.py:97-98 | the selection is cleared |
| StreamlitApp.StreamlitState.ChatPane | Frontend/streamlit_app.py:148-156 | the selected session if it exists; otherwise the first session, whose id is written back; none for empty history |
| StreamlitApp.StreamlitState.SubmitForm | Frontend/streamlit_app.py:211-221 | blank query: nothing happens; otherwise the stripped query is posted, the reply's session id is selected, or the default refresh runs; busy ends false |
| Summarizer.Words | Backend/services/summarizer.py:10 | every word is non-empty and free of whitespace; no words iff the text is blank |
| Summarizer.SplitJoinRoundTrip | Backend/services/summarizer.py:18 | joining words with single spaces and splitting again gives the words back |
| Summarizer.PackAllInvariant | Backend/services/summarizer.py:14-23 | the loop state: closed chunks plus the open one are the words so far, the length is the open chunk's cost, the bounds and greediness below |
| Summarizer.GroupsPartitionWords | Backend/services/summarizer.py:10-28 | the chunks concatenated are exactly the words; no chunk is empty; no words, no chunks |
| Summarizer.GroupsWithinLimit | Backend/services/summarizer.py:16-20 | a chunk of two or more words costs at most the limit |
| Summarizer.GroupsGreedy | Backend/services/summarizer.py:17-20 | a chunk closes only when the next word would push it over the limit |
| Summarizer.ChunksResplit | Backend/services/summarizer.py:25-28 | each chunk string splits back into its own words; no chunks iff blank text |
| Summarizer.ChunkText | Backend/services/summarizer.py:8-28 | the loop computes the packing specified by `Chunks` |
| Summarizer.Answer | Backend/services/summarizer.py:39-42 | the stripped reply, or the prefix followed by the exception's message |
| Summarizer.SummarizeChunks | Backend/services/summarizer.py:47-53 | one numbered prompt per chunk, in order, and its summary or numbered error |
| Summarizer.SummarizeText | Backend/services/summarizer.py:31-62 | blank text: the fixed message and no model call; under 8000 characters: one call; otherwise one call per 8000-size chunk (at least one) plus a final call on the joined partial summaries |
| Retry.WaitsGeometric | Backend/core/utils.py:29-37 | the first wait is `delay`, each next one is the previous times `backoff` |
| Retry.RetryCall | Backend/core/utils.py:22-40 | at most `max_retries` calls; the first success is returned; a sleep after every failure with the geometric waits; after all fail, the "failed after n retries" error; no call when `max_retries` ≤ 0 |
| Agents.RetrieverRun | Backend/workflows/agents.py:4-6 | the retrieval service gets the sources, or arxiv and wikipedia by default |
| Agents.SummarizerRun | Backend/workflows/agents.py:8-10 | `summarize_text` with its default limit: the blank, short and chunked outcomes with 200 words in every prompt |
| Agents.CriticRun | Backend/workflows/agents.py:13-20 | rejected iff the lower-cased text contains "lorem ipsum", with the two reasons |
| Agents.CriticIgnoresCase | Backend/workflows/agents.py:18 | upper- or lower-casing the text does not change the verdict |
| Agents.CriticRejectsOccurrences | Backend/workflows/agents.py:18-19 | rejection iff the phrase occurs at some position |
| Agents.CriticRejectsUpperCase | Backend/workflows/agents.py:18-19 | "LOREM IPSUM" anywhere in a text is rejected |
| Nodes.FetchPapersNode | Backend/workflows/nodes.py:8-14 | only `retrieved_docs` changes: the results, or the "Failed to retrieve documents" entry |
| Nodes.CombineDocs | Backend/workflows/nodes.py:18-25 | the loop builds the upper-cased headers and contents in source order |
| Nodes.CombinedBlankIffNoDocs | Backend/workflows/nodes.py:20-27 | the combined text is blank exactly when there are no documents |
| Nodes.SummarizeNode | Backend/workflows/nodes.py:16-35 | only `summary` changes; no documents: the fixed message and no summariser call; otherwise one call on the combined text, with its error text on failure |
| Nodes.CriticNode | Backend/workflows/nodes.py:37-40 | only `critic_review` changes, to the verdict on the summary (missing = ""): ok iff the lower-cased text lacks "lorem ipsum", with the matching reason |
| Nodes.PlannedWrites | Backend/workflows/nodes.py:46-62 | the user's query as a user message first; when a summary exists, then the summary as an assistant message and as the summary row, and nothing else |
| Nodes.PersistenceNode | Backend/workflows/nodes.py:42-66 | the completed writes are a prefix of the planned ones; `saved` true iff all completed, with nothing else changed; otherwise `saved` false and the "Failed to save" error |
| ResearchGraph.CriticCondition | Backend/workflows/research_graph.py:19-21 | back to summarize iff the review is present with `ok` false; otherwise persist |
| ResearchGraph.Next | Backend/workflows/research_graph.py:15-29 | every node has a successor except END |
| ResearchGraph.Edges | Backend/workflows/research_graph.py:15-29 | fetch → summarize → critic, critic → summarize or persist, persist → END |
| ResearchGraph.Predecessors | Backend/workflows/research_graph.py:23-29 | END only after persist; persist only after critic; summarize only after fetch or a rejecting critic |
| ResearchGraph.InitialState | Backend/workflows/research_graph.py:33-38 | user and query set, no session id, nothing else |
| ResearchGraph.RunToEnd | Backend/workflows/research_graph.py:15-29 | a run is fetch, one summarize-critic round per review up to the first accepting one, then persist and END |
| ResearchGraph.RejectedRounds | Backend/workflows/research_graph.py:19-27 | while every review rejects, the run from summarize is one summarize → critic round per review and then one more round awaiting a review |
| ResearchGraph.RejectedRunNeverPersists | Backend/workflows/research_graph.py:19-27 | while every review rejects, persist and END are never reached |
| RoutesHistory.ErrorFor | Backend/api/routes_history.py:94-101 | status 500 with "Database error" for database errors, "Internal server error" for others |
| RoutesHistory.RenderTime | Backend/api/routes_history.py:54-59 | a missing timestamp is ""; otherwise the formatted one, or `str()` of it when formatting raises |
| RoutesHistory.SerializeMessage | Backend/api/routes_history.py:70-81 | role, content and timestamp always present; a missing or empty role is "assistant", missing content "" |
| RoutesHistory.KeepMappedMembers | Backend/api/routes_history.py:83-90 | a failing item is skipped and only it: the output is exactly the items that do not fail |
| RoutesHistory.KeepMappedAppend | Backend/api/routes_history.py:51-87 | the output keeps the input order |
| RoutesHistory.KeepMappedNoFailures | Backend/api/routes_history.py:51-87 | with no failures every item appears, in place |
| RoutesHistory.SerializeSession | Backend/api/routes_history.py:54-66 | the id, the query or "", the rendered creation time, and the messages that did not fail, serialised in order |
| RoutesHistory.SerializeMessages | Backend/api/routes_history.py:68-84 | the inner loop collects exactly the serialised messages that do not fail, in order |
| RoutesHistory.SerializeAll | Backend/api/routes_history.py:51-92 | the outer loop computes the specified response: one entry per session that does not fail, in order |
| RoutesHistory.UserSessions | Backend/api/routes_history.py:43-49 | exactly the user's sessions, each as often as stored, newest first |
| RoutesHistory.Database.GetHistory | Backend/api/routes_history.py:29-101 | a missing user is created as "User {id}" / "user{id}@example.com" before the sessions are read; a lookup error, a taken email or a query error gives the matching 500; success returns the serialised sessions and the user then exists |
| RoutesHistory.ResponseSessions | Backend/api/routes_history.py:43-90 | every returned session belongs to the user, and every session of the user that does not fail is returned |

## Left out

- Whitespace and letter case are ASCII only. JavaScript `trim` also removes
  Unicode spaces; Python `split`/`strip` also treat 0x1C–0x1F and Unicode
  spaces as whitespace; `toLowerCase`/`lower` fold non-ASCII letters too.
- Helpers.TruncateText: when the cut falls inside a surrogate pair,
  JavaScript's `substring` keeps a lone high surrogate, which a string of
  Unicode scalar values cannot hold; the model keeps the prefix before that
  character.
- Helpers.GetCharacterCount: the `percentage` field is a float. It is not
  returned. The 80 % test is an exact integer comparison (`count*100 > max*80`),
  which agrees with the float test except for rounding at the boundary.
- Api.GetHistory: a falsy but non-null body (0, "", false) is treated like
  any present body. Only a null body becomes [].
- Api.ErrorMessage: a `detail` that is not a string (FastAPI's validation
  list) is not modelled. Neither are the request-logging interceptor and
  `healthCheck`.
- Timers and concurrency:
  - `setInterval`/`setTimeout` and React's asynchronous state batching are not
    modelled. The interval's firings are a count, and the hide-overlay timeout
    is a separate method.
  - Overlapping refreshes and stale closures are not modelled.
- ChatContainer.SortMessages: `new Date(...)` parsing is an abstract
  `parseTime` function. Invalid dates (NaN) are not modelled; with them the
  comparator is not a total order.
- `localStorage` and JSON are not modelled. Storage is an optional list field;
  corrupt JSON is not modelled.
- Randomness and utilities: `generateId`, `debounce`, `sleep`,
  `formatTimestamp` and `cn` are not modelled, nor is `count_tokens` in the
  backend.
- Helpers.ValidateInput: the regular expression is an abstract predicate.
- Rendering and markup are not modelled: JSX, Streamlit widgets, styles,
  icons, the session list component and the UI kit.
- The language model, the retrieval service and the database are parameters:
  - the model is a function from prompt to reply or exception message;
  - retrieval is a result;
  - database writes fail at a chosen index;
  - tables are in-memory rows.
- Nodes.SummarizeNode: the summariser is a parameter, a function from the
  combined text to a summary or an exception message. In the backend it is
  `SummarizerAgent.run`, modelled as `Agents.SummarizerRun`, a method that
  calls the model several times and so cannot be passed as a function. The
  node's failure branch stands for exceptions raised outside those calls.
- Other backend pieces:
  - `services/retriever.py`, `services/persistence.py`, `routes_chat.py`,
    `main.py`, `db/` and `core/config.py` are not part of this model;
  - logging and `print` are left out.
- RoutesHistory.UserSessions: the database's order among sessions with equal
  timestamps is unspecified. The model keeps table order. NULL timestamps sort
  first, as PostgreSQL does for a descending order.
- RoutesHistory.Database.GetHistory: failures are explicit parameters. These
  are the lookup, the insert (modelled as the unique-email violation only),
  the sessions query, and per-item processing. Other failure points in
  between are not modelled.
- ResearchGraph.RunToEnd: the graph is run over the sequence of reviews the
  critic produces. LangGraph's recursion limit is not modelled. The node
  bodies run separately, in `Nodes`.
- Nodes: the database handle in the state dictionary is left out. A `Scalar`
  document content is a string; other Python values rendered by the f-string
  are not modelled.
- Retry.RetryCall: delays are integers; Python also accepts floats.
  Exceptions are not distinguished; every failure is retried.
