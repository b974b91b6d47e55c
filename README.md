# Weekly AI-tools digest and chat bot, modelled in Dafny

This project models the core of a small Python program made of two parts.

`fetch.py` builds a weekly digest of newly launched AI tools. `run_digest` does the following:

- It searches the web and drops every result URL that contains one of six deny-listed tokens.
- It visits the remaining URLs in order. For each one it extracts the article text and strips it. A page that fails to extract, or whose stripped text is empty, is skipped; otherwise it asks a language model to summarise the first 4000 characters.
- It keeps a summary only if the summary carries the `🔹 Tool Name:` field marker.
- It pauses two seconds after each visit, except a visit whose stripped text is empty, and stops once `max_tools` summaries are held.
- If it collected anything, it writes the summaries joined by `\n\n---\n\n` to `ai_tools_weekly_digest.txt`. It may also post them, under a header, to a Microsoft Teams webhook.

`langgraph_bot.py` is a one-node chat graph. `chat_node` lower-cases the last message and looks for the phrase "send the new tools to the team":

- When the phrase is there, the node runs the digest with five tools and Teams delivery on, then answers with a fixed acknowledgement.
- Otherwise it forwards the message to the chat model.
- Either way it returns the old message list with one reply appended.

A command-line loop appends each user line to the list and hands the list to the graph.

The project has four modules:

- `Wrappers` (`wrappers.dfy`) holds `Option`.
- `Text` (`text.dfy`) models the Python string built-ins the program relies on: `t in s`, `str.strip`, `str.lower`, `s[:n]` and `sep.join`.
- `Fetch` (`fetch.dfy`) models `fetch.py`.
- `Bot` (`langgraph_bot.dfy`) models `langgraph_bot.py`.

The outside world is an `Env` of three oracles:

- the search provider, which maps a query and a result count to a list of URLs;
- the article extractor, which maps a URL to its text or to a failure;
- the completion service, which maps a request to its text, or to `None` when the call raises or returns nothing.

What a run does to the world is recorded as values:

- a list of events (article download, summarise call, pause);
- the text written to the file;
- the message posted to Teams.

Three parts of the program are written in the same form as the code:

- the collection loop is the `for` loop `Fetch.CollectSummaries`, with its `break` and `continue`;
- `run_digest` is the method `Fetch.RunDigest`;
- the chat loop's state is the class `Bot.Session`, whose methods update the message list in place.

Each method is proved equal to a specification function (`Fetch.Collect`, built on the recursive `Fetch.CollectFrom`; `Fetch.Digest`; the recursive `Bot.Dialogue`), and the lemmas state what those functions guarantee.

A visit whose stripped text is empty leaves through `continue` (fetch.py:136) and skips the `time.sleep(2)` at fetch.py:148. `Fetch.TracePauses` proves the count: one pause per visit except those with blank text.

The message posted to Teams carries the digest title twice. `run_digest` prefixes `🧠 Weekly AI Tools Digest` (fetch.py:162), and `send_to_teams` prefixes the bold banner as well (fetch.py:37). `Fetch.Publish` models both prefixes as written.

## Model

| member | source | states |
|---|---|---|
| `Fetch.IsValidSummary` | fetch.py:139 | `summary and "🔹 Tool Name:" in summary`: the summary is present, not empty, and contains the Tool Name marker |
| `Fetch.IsEmptyPage` | fetch.py:132-134 | `not content`: the article was extracted and its text is empty once stripped |
| `Fetch.Kept` | fetch.py:139-142 | a visit appends its summary to `collected` when it has one, and nothing otherwise |
| `Fetch.VisitUrl` | fetch.py:126-148 | one pass of the loop body below the target: a failed extraction records the download and a pause and keeps nothing; blank text records only the download; otherwise it summarises the first 4000 characters of the stripped text, keeps the summary only when it is valid, and pauses |
| `Fetch.SummaryPrompt` | fetch.py:76-91 | the prompt is the format template, then the `🔹 Source URL: ` line with the URL, then the article text between triple quotes |
| `Fetch.Summarize` | fetch.py:92-105 | `summarize_tool_article` sends the summariser persona and the prompt, with temperature 0.5 and at most 800 tokens, to the completion service and returns its text, or `None` when the call raises or gives no content |
| `Fetch.CollectFrom` | fetch.py:119-148 | the `for` loop from a given state: it stops at the target or at the end of the list, and otherwise visits the next URL and goes on |
| `Fetch.Collect` | fetch.py:119-148 | the loop starts from no summaries, no attempts and no calls, over the filtered search results |
| `Fetch.Allowed` | fetch.py:115 | a URL is kept when none of the six deny tokens is a substring of it, compared case-sensitively |
| `Fetch.FilterUrls` | fetch.py:113-116 | every URL kept is one of the search results and contains none of the six deny tokens, and no more URLs come out than went in |
| `Fetch.FilterUrlsCounts` | fetch.py:113-116 | each allowed URL appears in the filtered list exactly as often as in the search results, and each denied URL does not appear at all |
| `Fetch.FilterUrlsAppend` | fetch.py:113-116 | filtering keeps the original order: filtering a concatenation is the concatenation of the filtered parts |
| `Fetch.SummaryPromptLayout` | fetch.py:77-91 | the summarise prompt has `🔹 Source URL: ` followed by the article's URL right after the format template, and ends with the article text between triple quotes |
| `Fetch.VisitDownloadsOnce` | fetch.py:127-131 | one visit downloads its own URL exactly once, and its first call is that download |
| `Fetch.VisitSummariseCall` | fetch.py:132-138 | a visit calls the summariser at most once, only for its own URL and only after a successful extraction, with the first at most 4000 characters of the stripped text, which are not empty; when the extracted text is not blank, that call is made |
| `Fetch.VisitSummary` | fetch.py:132-142 | a visit keeps a summary exactly when the article was extracted with text that is not blank and the summariser's answer for the 4000-character excerpt is valid, and the summary kept is that answer |
| `Fetch.VisitSummarisedCount` | fetch.py:128-138 | a visit makes exactly one summarise call when the article was extracted with text that is not blank, and none otherwise |
| `Fetch.SummarisedAppend` | fetch.py:122-138 | the summarise calls of two runs of calls add up |
| `Fetch.VisitKeepsMarked` | fetch.py:139-144 | a visit keeps a summary only if the summary contains `🔹 Tool Name:` |
| `Fetch.VisitPauses` | fetch.py:134-136 | a visit pauses exactly once, unless the stripped text is empty |
| `Fetch.Harvest` | fetch.py:139-142 | visiting a list of URLs keeps at most one summary per URL, and every kept summary contains the Tool Name marker |
| `Fetch.HarvestAppend` | fetch.py:122-142 | summaries are kept in the order of their URLs |
| `Fetch.TraceAppend` | fetch.py:122-148 | the calls made by visiting a list of URLs are the calls of each visit, in URL order |
| `Fetch.DownloadedAppend` | fetch.py:127-131 | the downloads of two runs of calls are the downloads of each, in order |
| `Fetch.DownloadedNone` | fetch.py:132-148 | calls that are not downloads download nothing |
| `Fetch.TraceDownloads` | fetch.py:122-131 | visiting a list of URLs downloads exactly those URLs, once each and in order |
| `Fetch.TracePauses` | fetch.py:134-148 | the number of pauses equals the number of visits minus the visits whose stripped text is empty; failed extractions and dropped summaries pause too |
| `Fetch.TraceSummarisedCount` | fetch.py:122-138 | the number of summarise calls equals the number of visits minus those whose extraction failed and those whose stripped text is empty |
| `Fetch.TraceSummariseCalls` | fetch.py:128-138 | every summarise call is for a visited URL whose article was extracted, with the first at most 4000 characters of its stripped text, which are not empty |
| `Fetch.CollectFromStep` | fetch.py:122-148 | below the target, the loop over the rest of the URLs is one visit followed by the loop over the URLs after it |
| `Fetch.StepFailed` | fetch.py:146-148 | when extraction raises, the pass records the download and a pause, keeps nothing, counts the attempt and the loop goes on with the next URL |
| `Fetch.StepBlank` | fetch.py:132-136 | when the stripped text is empty, the pass records only the download, counts the attempt and goes on without pausing |
| `Fetch.StepSummarised` | fetch.py:138-148 | when there is text, the pass summarises the excerpt, keeps the summary only if it is valid, and pauses |
| `Fetch.VisitOneMore` | fetch.py:122-148 | visiting one more URL extends the kept summaries and the calls by that visit's own |
| `Fetch.CollectFromCharacterised` | fetch.py:122-148 | from any prefix that stayed under the target, the loop ends at a later prefix whose summaries and calls are exactly those of visiting it, and stops early only at the target |
| `Fetch.CollectCharacterised` | fetch.py:122-124 | the loop visits a prefix of the filtered URLs; its summaries and calls are exactly those of visiting that prefix; it stops before the end only once `max_tools` summaries are held, and not one URL sooner |
| `Fetch.CollectBounded` | fetch.py:122-124 | the loop never holds more than `max(max_tools, 0)` summaries |
| `Fetch.CollectEffects` | fetch.py:122-148 | the loop downloads the filtered URLs in order up to `attempted` and none after; it adds at most one summary per attempt; every summary carries the marker; it pauses once per attempt except on blank text |
| `Fetch.TeamsMessage` | fetch.py:36-38 | the text `send_to_teams` posts is the bold digest banner, a blank line, then the message |
| `Fetch.Digest` | fetch.py:108-162 | a run of `run_digest` is the collection loop over the filtered search results followed by publishing what it collected |
| `Fetch.Publish` | fetch.py:150-162 | nothing is written or posted when nothing was collected; otherwise the file holds the summaries joined by the separator, and a post happens exactly when `post_to_teams` is set, with the bold banner and the title in front of the file text |
| `Fetch.DigestFileLayout` | fetch.py:155-158 | in the written digest, each summary's block starts at its offset in the join, contains the Tool Name marker, and is followed by exactly one separator when another block comes next |
| `Fetch.CollectSummaries` | fetch.py:119-148 | the imperative loop, with its `break` and `continue`, ends in exactly the state that the loop specification `Collect` gives |
| `Fetch.RunDigest` | fetch.py:108-162 | `run_digest` produces exactly the specified run, writes nothing exactly when nothing was collected, and posts only when asked and only when it also writes |
| `Text.Contains` | fetch.py:115 | `t in s`: `t` is a prefix of `s` or of one of its suffixes |
| `Text.Strip` | fetch.py:132 | `str.strip()` is the left strip followed by the right strip |
| `Text.Lower` | langgraph_bot.py:26 | `str.lower()` maps each character through the ASCII lower-case mapping |
| `Text.Join` | fetch.py:155 | `sep.join(parts)` puts the separator between consecutive parts and nowhere else |
| `Text.ContainsIffOccurs` | fetch.py:115 | the substring test `t in s` holds exactly when `t` occurs at some offset of `s` |
| `Text.MissingFirstChar` | langgraph_bot.py:28 | a text that lacks the first character of `t` does not contain `t` |
| `Text.TrimStartDrops` | fetch.py:132 | the left strip removes leading white space and nothing else |
| `Text.TrimEndDrops` | fetch.py:132 | the right strip removes trailing white space and nothing else |
| `Text.StripSlice` | fetch.py:132 | `strip()` returns the slice of the text with only white space around it, and the slice neither starts nor ends with white space |
| `Text.StripEmptyIffBlank` | fetch.py:132-134 | the stripped text is empty exactly when the text is white space only |
| `Text.StripIdempotent` | fetch.py:132 | stripping twice is the same as stripping once |
| `Text.Take` | fetch.py:138 | `content[:4000]` is a prefix of the content, 4000 characters long or the whole content when shorter |
| `Text.LowerForgetsCase` | langgraph_bot.py:26 | lower-casing erases case: an upper-cased text lower-cases to the same result, and lower-casing is idempotent |
| `Text.LowerSlice` | langgraph_bot.py:26-28 | lower-casing commutes with taking a slice |
| `Text.JoinLayout` | fetch.py:155 | in `sep.join(parts)`, part `k` sits at its offset, a separator follows it when another part comes next, and the joined text ends with the last part |
| `Text.PartOffsetStep` | fetch.py:155 | consecutive parts of a join are one part and one separator apart |
| `Bot.IsTrigger` | langgraph_bot.py:26-28 | the trigger test looks for the phrase in the lower-cased last message |
| `Bot.ChatRequest` | langgraph_bot.py:32-38 | the chat request is the helpful-assistant persona and the message as typed, with no temperature and no token limit |
| `Bot.Answer` | langgraph_bot.py:28-39 | the reply is the acknowledgement on the trigger, and otherwise the completion of the persona and the message as typed |
| `Bot.Dialogue` | langgraph_bot.py:52-58 | the history that a run of answered inputs adds: each input followed by its reply |
| `Bot.ChatNode` | langgraph_bot.py:25-41 | the returned list is the old one with exactly one reply appended. On the trigger, the digest runs once with five tools and delivery on, and the reply is the acknowledgement. Otherwise the message as typed goes to the model, and the reply is the model's text unchanged. The turn fails exactly when that completion raises or returns no content |
| `Bot.TriggerIffPhraseAnyCase` | langgraph_bot.py:26-28 | a message triggers the digest exactly when some stretch of it spells the phrase in any mixture of upper and lower case |
| `Bot.TriggerIgnoresCase` | langgraph_bot.py:26-28 | upper-casing or lower-casing a message does not change whether it triggers the digest |
| `Bot.TeamRequestTriggers` | langgraph_bot.py:26-28 | "Send the new tools to the team please" triggers the digest |
| `Bot.OrdinaryQuestion` | langgraph_bot.py:28-39 | "Hello, how are you?" does not trigger the digest |
| `Bot.ReplyDependsOnLastOnly` | langgraph_bot.py:26-39 | the reply and the digest run depend on the last message only, not on the earlier history |
| `Bot.AcknowledgementIgnoresDigest` | langgraph_bot.py:28-30 | on the trigger the turn always succeeds, and the reply is the same whatever the digest found |
| `Bot.TurnAnswers` | langgraph_bot.py:55-57 | answering a history that ends in an input either fails, or appends exactly that input's reply |
| `Bot.DialogueAlternates` | langgraph_bot.py:54-58 | successful turns alternate user and bot: input `k` sits at position `2k` and its reply right after it, so every turn adds exactly two entries |
| `Bot.DialogueAppend` | langgraph_bot.py:54-58 | the history of two runs of inputs is the history of the first followed by that of the second |
| `Bot.DialogueSnoc` | langgraph_bot.py:55-57 | one more successful turn adds that input and its reply |
| `Bot.Session.constructor` | langgraph_bot.py:53 | the conversation starts with an empty message list |
| `Bot.Session.Submit` | langgraph_bot.py:55-57 | the input is appended in place, then the list is replaced by the node's result; a failed completion leaves the input in the list without a reply |
| `Bot.Session.Converse` | langgraph_bot.py:52-58 | over a finite run of inputs, the history grows by each answered input and its reply. The loop stops at the end of the inputs or at the first failed completion, whose input stays in the history unanswered |

## Left out

- The SerpAPI request, `raise_for_status` and JSON decoding (fetch.py:56-73) are network I/O. The search is an oracle that returns a list of URL strings. A missing `link` would make the filter crash on `None` (fetch.py:70, 115). The model assumes every link is a string.
- `newspaper.Article` download and parse (fetch.py:129-131) is a foreign library. It is an oracle that returns the text or a failure. Any exception from these calls is a failure.
- The Azure OpenAI completions (fetch.py:92-105, langgraph_bot.py:32-39) are an oracle from the request to the text or `None`. The deployment name is not modelled: both calls use the same one (fetch.py:94, langgraph_bot.py:33). The temperature and `max_tokens` are carried in the request but have no meaning in the model.
- The oracles are functions, so the same request always gets the same answer. The nondeterminism of the real services is not modelled.
- In the digest, a `None` content from the model counts as no summary; the code's `summary and …` test treats it the same way.
- Bot.ChatNode: a completion that returns a `None` content is modelled as a failed turn, like one that raises, because the completion oracle gives `None` in both cases. The code would instead append `None` as the reply (langgraph_bot.py:39-41) and the loop would go on (langgraph_bot.py:57).
- The Teams webhook POST, its status codes and its error printing (fetch.py:44-52) are not modelled. Only the message string that would be posted is recorded.
- The JSON encoding of the payload (fetch.py:36-45) is not modelled.
- The file write (fetch.py:157-158) is not modelled. The model records the text that would be written.
- The length of `time.sleep(2)` (fetch.py:148) is not modelled. Only the pauses are counted.
- Environment loading, client construction and argparse (fetch.py:11-29, 167-173) are not modelled.
- The LangGraph build, compile and invoke (langgraph_bot.py:44-49) are not modelled. `chat_node` is modelled directly as the transition.
- `print` diagnostics are not modelled.
- `str.lower` and `str.strip` are modelled on ASCII only. Lower-casing maps `A`–`Z`. White space is space, `\t` to `\r`, and `\x1c` to `\x1f`. Python's Unicode case mappings and Unicode white space are not modelled.
- Exceptions that `run_digest` itself does not catch, such as a failing search outside the `try`, are not modelled. `Fetch.Digest` always completes.
- Bot.Session.Converse: the real loop runs forever on `input()`; the model processes a given finite list of inputs. It does not return the digest runs that triggered turns start, although each turn's run is given by `Bot.ChatNode`.
