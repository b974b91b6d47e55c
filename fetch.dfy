/**
 * The weekly AI-tools digest of fetch.py: search for candidate articles, drop
 * the URLs on a deny list, visit the rest in order (extract the article text,
 * have the language model summarise it, keep summaries that carry the
 * "Tool Name" field marker) until enough summaries are held, then write the
 * digest and optionally post it to the Teams webhook.
 *
 * Search, article extraction and the language model are oracles carried by an
 * `Env`; the effects a run has on the world are recorded as events (a download,
 * a summarise call, a pause) and as the text it writes and posts.
 */
module Fetch {
  import opened Wrappers
  import opened Text

  type Url = string

  /** A chat-completion request: the system persona, the single user turn and the sampling settings the caller fixes. */
  datatype Request = Request(system: string, user: string, temperature: Option<real>, maxTokens: Option<nat>)

  /** What `Article(url).download(); .parse()` yields: the article text, or an exception. */
  datatype Page = Extracted(text: string) | ExtractionFailed

  /**
   * The outside world of a run: the search provider (query, number of results),
   * the article extractor, and the completion service (`None` when the request raises or the reply has no content).
   */
  datatype Env = Env(search: (string, nat) -> seq<Url>, fetch: Url -> Page, llm: Request -> Option<string>)

  const SearchQuery: string := "new AI tools launched this week"
  const SearchResults: nat := 20

  /** URLs containing any of these, case-sensitively, are never visited. */
  const DenyTokens: seq<string> := ["youtube.com", "instagram.com", "futurepedia", "trendhunter", "list", "directory"]

  /** Only this many characters of the stripped article text reach the summariser. */
  const ExcerptLength: nat := 4000

  const ToolNameMarker: string := "\U{1F539} Tool Name:"
  const SourceLabel: string := "\U{1F539} Source URL: "
  const SummariserPersona: string := "You are an expert in analyzing and summarizing AI tools."

  const PromptFormat: string :=
    "\nSummarize the following article about a newly launched AI tool.\n\nFormat:\n"
    + ToolNameMarker + "\n"
    + "\U{1F539} Website:\n"
    + "\U{1F539} Summary:\n"
    + "\U{1F539} Key Features:\n"
    + "\U{1F539} Pricing:\n"
    + "\U{1F539} Category:\n"
  const ArticleOpen: string := "\n\nArticle:\n\"\"\""
  const ArticleClose: string := "\"\"\"\n"

  const Separator: string := "\n\n---\n\n"
  const DigestTitle: string := "\U{1F9E0} Weekly AI Tools Digest\n\n"
  const TeamsBanner: string := "**\U{1F9E0} Weekly AI Tools Digest**\n\n"

  // ---------------------------------------------------------------------------
  // Filtering the search results

  /** No deny token is a substring of `url`. */
  predicate Allowed(url: Url) {
    forall t :: t in DenyTokens ==> !Contains(url, t)
  }

  /** The list comprehension that keeps the allowed URLs. */
  function FilterUrls(urls: seq<Url>): (r: seq<Url>)
    ensures |r| <= |urls|
    ensures forall k :: 0 <= k < |r| ==> Allowed(r[k]) && r[k] in urls
    decreases |urls|
  {
    if urls == [] then []
    else (if Allowed(urls[0]) then [urls[0]] else []) + FilterUrls(urls[1..])
  }

  /** Filtering keeps the original order: it works piecewise on any split of the list. */
  lemma {:induction false} FilterUrlsAppend(a: seq<Url>, b: seq<Url>)
    ensures FilterUrls(a + b) == FilterUrls(a) + FilterUrls(b)
    decreases |a|
  {
    if a != [] {
      assert (a + b)[0] == a[0] && (a + b)[1..] == a[1..] + b;
      FilterUrlsAppend(a[1..], b);
    } else {
      assert a + b == b;
    }
  }

  /** Every allowed URL survives as often as it was found; every denied one disappears. */
  lemma {:induction false} FilterUrlsCounts(urls: seq<Url>, u: Url)
    ensures multiset(FilterUrls(urls))[u] == if Allowed(u) then multiset(urls)[u] else 0
    decreases |urls|
  {
    if urls != [] {
      assert urls == [urls[0]] + urls[1..];
      FilterUrlsCounts(urls[1..], u);
    }
  }

  // ---------------------------------------------------------------------------
  // Summarising one article

  /** The prompt `summarize_tool_article` sends for `content` found at `url`. */
  function SummaryPrompt(content: string, url: Url): string {
    PromptFormat + SourceLabel + url + ArticleOpen + content + ArticleClose
  }

  /**
   * The prompt names the article's URL on the line after the format template,
   * and ends with the article text between triple quotes.
   */
  lemma SummaryPromptLayout(content: string, url: Url)
    ensures var p := SummaryPrompt(content, url);
            && OccursAt(p, SourceLabel + url + "\n", |PromptFormat|)
            && OccursAt(p, "\"\"\"" + content + ArticleClose, |p| - |"\"\"\"" + content + ArticleClose|)
  {
    var p := SummaryPrompt(content, url);
    assert p == PromptFormat + (SourceLabel + url + "\n") + "\nArticle:\n" + ("\"\"\"" + content + ArticleClose);
  }

  /** `summarize_tool_article`: one completion request; `None` when it raises or gives no text. */
  function Summarize(content: string, url: Url, llm: Request -> Option<string>): Option<string> {
    llm(Request(SummariserPersona, SummaryPrompt(content, url), Some(0.5), Some(800)))
  }

  /** `summary and "🔹 Tool Name:" in summary`. */
  predicate IsValidSummary(summary: Option<string>) {
    summary.Some? && summary.value != "" && Contains(summary.value, ToolNameMarker)
  }

  // ---------------------------------------------------------------------------
  // Visiting one URL

  /** The observable calls of a run: an article download, a summarise call, a two-second pause. */
  datatype Event = Download(url: Url) | Summarise(excerpt: string, url: Url) | Pause

  /** What one pass of the loop body does: the summary it keeps, if any, and the calls it makes. */
  datatype Visit = Visit(summary: Option<string>, events: seq<Event>)

  /** The extracted text is empty once stripped: the `continue` that skips the pause. */
  predicate IsEmptyPage(page: Page) {
    page.Extracted? && Strip(page.text) == []
  }

  /** The URLs downloaded by a sequence of calls, in order. */
  function Downloaded(events: seq<Event>): seq<Url>
    decreases |events|
  {
    if events == [] then []
    else (if events[0].Download? then [events[0].url] else []) + Downloaded(events[1..])
  }

  /** The body of the `for url in filtered` loop once the target has not been reached. */
  function VisitUrl(url: Url, env: Env): Visit {
    match env.fetch(url)
    case ExtractionFailed => Visit(None, [Download(url), Pause])
    case Extracted(text) =>
      var content := Strip(text);
      if content == [] then Visit(None, [Download(url)])
      else
        var excerpt := Take(content, ExcerptLength);
        var summary := Summarize(excerpt, url, env.llm);
        Visit(if IsValidSummary(summary) then summary else None,
              [Download(url), Summarise(excerpt, url), Pause])
  }

  /** Calls that are not downloads download nothing. */
  lemma {:induction false} DownloadedNone(events: seq<Event>)
    requires forall k :: 0 <= k < |events| ==> !events[k].Download?
    ensures Downloaded(events) == []
    decreases |events|
  {
    if events != [] {
      DownloadedNone(events[1..]);
    }
  }

  /** One visit downloads its URL exactly once, before anything else. */
  lemma VisitDownloadsOnce(url: Url, env: Env)
    ensures VisitUrl(url, env).events[0] == Download(url)
    ensures Downloaded(VisitUrl(url, env).events) == [url]
  {
    var evs := VisitUrl(url, env).events;
    assert evs == [Download(url)] + evs[1..];
    assert Downloaded([Download(url)]) == [url] by {
      assert [Download(url)][1..] == [];
    }
    DownloadedAppend([Download(url)], evs[1..]);
    DownloadedNone(evs[1..]);
  }

  /** A visit keeps a summary only if it carries the Tool Name marker. */
  lemma VisitKeepsMarked(url: Url, env: Env)
    ensures VisitUrl(url, env).summary.Some? ==> Contains(VisitUrl(url, env).summary.value, ToolNameMarker)
  {
  }

  /** A visit pauses once, unless its stripped text is empty. */
  lemma VisitPauses(url: Url, env: Env)
    ensures multiset(VisitUrl(url, env).events)[Pause] == if IsEmptyPage(env.fetch(url)) then 0 else 1
  {
  }

  /**
   * A visit calls the summariser at most once, only for its own URL, and
   * exactly when the article was extracted with text that is not blank; the
   * call gets the first at most 4000 characters of the stripped text.
   */
  lemma VisitSummariseCall(url: Url, env: Env)
    ensures forall e :: e in VisitUrl(url, env).events && e.Summarise? ==>
              && e.url == url && env.fetch(url).Extracted?
              && e.excerpt == Take(Strip(env.fetch(url).text), ExcerptLength) && e.excerpt != []
    ensures env.fetch(url).Extracted? && !IsEmptyPage(env.fetch(url)) ==>
              Summarise(Take(Strip(env.fetch(url).text), ExcerptLength), url) in VisitUrl(url, env).events
    ensures var evs := VisitUrl(url, env).events;
            forall i, j :: 0 <= i < j < |evs| && evs[i].Summarise? ==> !evs[j].Summarise?
  {
  }

  /**
   * A visit keeps a summary exactly when the article was extracted with text
   * that is not blank and the summariser's answer for its 4000-character
   * excerpt is valid; the summary kept is that answer.
   */
  lemma VisitSummary(url: Url, env: Env)
    ensures var page := env.fetch(url);
            VisitUrl(url, env).summary.Some? <==>
              page.Extracted? && !IsEmptyPage(page)
              && IsValidSummary(Summarize(Take(Strip(page.text), ExcerptLength), url, env.llm))
    ensures VisitUrl(url, env).summary.Some? ==>
              VisitUrl(url, env).summary == Summarize(Take(Strip(env.fetch(url).text), ExcerptLength), url, env.llm)
  {
  }

  /** The number of summarise calls in a sequence of calls. */
  function Summarised(events: seq<Event>): nat
    decreases |events|
  {
    if events == [] then 0 else (if events[0].Summarise? then 1 else 0) + Summarised(events[1..])
  }

  /** A visit makes one summarise call when the article was extracted with text that is not blank, and none otherwise. */
  lemma VisitSummarisedCount(url: Url, env: Env)
    ensures Summarised(VisitUrl(url, env).events) ==
              if env.fetch(url).Extracted? && !IsEmptyPage(env.fetch(url)) then 1 else 0
  {
    var evs := VisitUrl(url, env).events;
    assert Summarised(evs) == (if evs[0].Summarise? then 1 else 0) + Summarised(evs[1..]);
    if |evs| > 1 {
      assert Summarised(evs[1..]) == (if evs[1].Summarise? then 1 else 0) + Summarised(evs[2..]);
    }
    if |evs| > 2 {
      assert Summarised(evs[2..]) == (if evs[2].Summarise? then 1 else 0) + Summarised(evs[3..]);
    }
  }

  /** The summary a visit appends to `collected`. */
  function Kept(v: Visit): seq<string> {
    if v.summary.Some? then [v.summary.value] else []
  }

  /** The summaries that visiting every URL of `urls` in turn would keep, in visiting order. */
  function Harvest(urls: seq<Url>, env: Env): (r: seq<string>)
    ensures |r| <= |urls|
    ensures forall k :: 0 <= k < |r| ==> Contains(r[k], ToolNameMarker)
    decreases |urls|
  {
    if urls == [] then []
    else
      VisitKeepsMarked(urls[0], env);
      Kept(VisitUrl(urls[0], env)) + Harvest(urls[1..], env)
  }

  /** The calls that visiting every URL of `urls` in turn would make. */
  function Trace(urls: seq<Url>, env: Env): seq<Event>
    decreases |urls|
  {
    if urls == [] then [] else VisitUrl(urls[0], env).events + Trace(urls[1..], env)
  }

  /** How many of `urls` yield text that is empty once stripped. */
  function CountEmpty(urls: seq<Url>, env: Env): nat
    decreases |urls|
  {
    if urls == [] then 0 else (if IsEmptyPage(env.fetch(urls[0])) then 1 else 0) + CountEmpty(urls[1..], env)
  }

  /** How many of `urls` fail to extract. */
  function CountFailed(urls: seq<Url>, env: Env): nat
    decreases |urls|
  {
    if urls == [] then 0 else (if env.fetch(urls[0]).ExtractionFailed? then 1 else 0) + CountFailed(urls[1..], env)
  }

  /** Summaries are kept in the order of their URLs. */
  lemma {:induction false} HarvestAppend(a: seq<Url>, b: seq<Url>, env: Env)
    ensures Harvest(a + b, env) == Harvest(a, env) + Harvest(b, env)
    decreases |a|
  {
    if a != [] {
      assert (a + b)[0] == a[0] && (a + b)[1..] == a[1..] + b;
      HarvestAppend(a[1..], b, env);
    } else {
      assert a + b == b;
    }
  }

  /** Calls are made in the order of their URLs. */
  lemma {:induction false} TraceAppend(a: seq<Url>, b: seq<Url>, env: Env)
    ensures Trace(a + b, env) == Trace(a, env) + Trace(b, env)
    decreases |a|
  {
    if a != [] {
      assert (a + b)[0] == a[0] && (a + b)[1..] == a[1..] + b;
      TraceAppend(a[1..], b, env);
    } else {
      assert a + b == b;
    }
  }

  lemma {:induction false} DownloadedAppend(a: seq<Event>, b: seq<Event>)
    ensures Downloaded(a + b) == Downloaded(a) + Downloaded(b)
    decreases |a|
  {
    if a != [] {
      assert (a + b)[0] == a[0] && (a + b)[1..] == a[1..] + b;
      DownloadedAppend(a[1..], b);
    } else {
      assert a + b == b;
    }
  }

  /** Visiting `urls` downloads each of them once, in order, and nothing else. */
  lemma {:induction false} TraceDownloads(urls: seq<Url>, env: Env)
    ensures Downloaded(Trace(urls, env)) == urls
    decreases |urls|
  {
    if urls != [] {
      VisitDownloadsOnce(urls[0], env);
      DownloadedAppend(VisitUrl(urls[0], env).events, Trace(urls[1..], env));
      TraceDownloads(urls[1..], env);
    }
  }

  /**
   * Every visit pauses once, whether it kept a summary, dropped one or caught an
   * exception, except a visit whose stripped text is empty.
   */
  lemma {:induction false} TracePauses(urls: seq<Url>, env: Env)
    ensures multiset(Trace(urls, env))[Pause] == |urls| - CountEmpty(urls, env)
    decreases |urls|
  {
    if urls != [] {
      VisitPauses(urls[0], env);
      TracePauses(urls[1..], env);
    }
  }

  lemma {:induction false} SummarisedAppend(a: seq<Event>, b: seq<Event>)
    ensures Summarised(a + b) == Summarised(a) + Summarised(b)
    decreases |a|
  {
    if a != [] {
      assert (a + b)[0] == a[0] && (a + b)[1..] == a[1..] + b;
      SummarisedAppend(a[1..], b);
    } else {
      assert a + b == b;
    }
  }

  /**
   * The summariser is called once per visit, except for the visits whose
   * extraction failed and those whose stripped text is empty.
   */
  lemma {:induction false} TraceSummarisedCount(urls: seq<Url>, env: Env)
    ensures Summarised(Trace(urls, env)) == |urls| - CountEmpty(urls, env) - CountFailed(urls, env)
    decreases |urls|
  {
    if urls != [] {
      VisitSummarisedCount(urls[0], env);
      SummarisedAppend(VisitUrl(urls[0], env).events, Trace(urls[1..], env));
      TraceSummarisedCount(urls[1..], env);
    }
  }

  /**
   * The summariser is only called for a URL whose article was extracted with
   * non-blank text, and then with at most the first 4000 characters of that text stripped.
   */
  lemma {:induction false} TraceSummariseCalls(urls: seq<Url>, env: Env)
    ensures forall e :: e in Trace(urls, env) && e.Summarise? ==>
              && e.url in urls && env.fetch(e.url).Extracted?
              && e.excerpt == Take(Strip(env.fetch(e.url).text), ExcerptLength)
              && 0 < |e.excerpt| <= ExcerptLength
    decreases |urls|
  {
    if urls != [] {
      VisitSummariseCall(urls[0], env);
      TraceSummariseCalls(urls[1..], env);
    }
  }

  // ---------------------------------------------------------------------------
  // The collection loop

  /** The loop's state: `collected`, `attempted`, and the calls made so far. */
  datatype Progress = Progress(collected: seq<string>, attempted: nat, events: seq<Event>)

  /** The rest of the loop over `urls`, from state `acc`: stop at the end or once `maxTools` summaries are held. */
  function CollectFrom(urls: seq<Url>, maxTools: int, env: Env, acc: Progress): Progress
    decreases |urls|
  {
    if urls == [] || |acc.collected| >= maxTools then acc
    else
      var v := VisitUrl(urls[0], env);
      CollectFrom(urls[1..], maxTools, env,
                  Progress(acc.collected + Kept(v), acc.attempted + 1, acc.events + v.events))
  }

  /** Unfolding the loop by one URL, when the target has not been reached. */
  lemma {:induction false} CollectFromStep(urls: seq<Url>, i: nat, maxTools: int, env: Env, acc: Progress)
    requires i < |urls| && |acc.collected| < maxTools
    ensures var v := VisitUrl(urls[i], env);
            CollectFrom(urls[i..], maxTools, env, acc)
            == CollectFrom(urls[i + 1..], maxTools, env,
                           Progress(acc.collected + Kept(v), acc.attempted + 1, acc.events + v.events))
  {
    assert urls[i..][0] == urls[i] && urls[i..][1..] == urls[i + 1..];
  }

  /** The whole loop over the filtered URLs. */
  function Collect(urls: seq<Url>, maxTools: int, env: Env): Progress {
    CollectFrom(urls, maxTools, env, Progress([], 0, []))
  }

  /** Visiting one more URL extends the summaries and the calls by that visit's. */
  lemma VisitOneMore(urls: seq<Url>, i: nat, env: Env)
    requires i < |urls|
    ensures Harvest(urls[..i + 1], env) == Harvest(urls[..i], env) + Kept(VisitUrl(urls[i], env))
    ensures Trace(urls[..i + 1], env) == Trace(urls[..i], env) + VisitUrl(urls[i], env).events
  {
    var u := urls[i];
    assert urls[..i + 1] == urls[..i] + [u];
    HarvestAppend(urls[..i], [u], env);
    TraceAppend(urls[..i], [u], env);
    assert [u][1..] == [];
  }

  lemma {:induction false} CollectFromCharacterised(urls: seq<Url>, maxTools: int, env: Env, i: nat)
    requires i <= |urls|
    requires forall n :: 0 <= n < i ==> |Harvest(urls[..n], env)| < maxTools
    ensures var r := CollectFrom(urls[i..], maxTools, env, Progress(Harvest(urls[..i], env), i, Trace(urls[..i], env)));
            && i <= r.attempted <= |urls|
            && r.collected == Harvest(urls[..r.attempted], env)
            && r.events == Trace(urls[..r.attempted], env)
            && (r.attempted < |urls| ==> |r.collected| >= maxTools)
            && (forall n :: 0 <= n < r.attempted ==> |Harvest(urls[..n], env)| < maxTools)
    decreases |urls| - i
  {
    var acc := Progress(Harvest(urls[..i], env), i, Trace(urls[..i], env));
    var r := CollectFrom(urls[i..], maxTools, env, acc);
    if i == |urls| {
      assert urls[i..] == [] && urls[..i] == urls;
      assert r == acc;
    } else if |acc.collected| >= maxTools {
      assert r == acc;
    } else {
      var u := urls[i];
      var v := VisitUrl(u, env);
      var next := Progress(acc.collected + Kept(v), i + 1, acc.events + v.events);
      assert urls[i..] != [] && urls[i..][0] == u && urls[i..][1..] == urls[i + 1..];
      assert r == CollectFrom(urls[i + 1..], maxTools, env, next);
      VisitOneMore(urls, i, env);
      assert next == Progress(Harvest(urls[..i + 1], env), i + 1, Trace(urls[..i + 1], env));
      forall n | 0 <= n < i + 1
        ensures |Harvest(urls[..n], env)| < maxTools
      {
      }
      CollectFromCharacterised(urls, maxTools, env, i + 1);
    }
  }

  /**
   * What the loop collects, independently of how it runs: it visits a prefix of
   * the filtered URLs; it keeps exactly the summaries that visiting that prefix
   * yields, and makes exactly its calls; it stops early only once `maxTools`
   * summaries are held, and not a URL sooner.
   */
  lemma CollectCharacterised(urls: seq<Url>, maxTools: int, env: Env)
    ensures var r := Collect(urls, maxTools, env);
            && r.attempted <= |urls|
            && r.collected == Harvest(urls[..r.attempted], env)
            && r.events == Trace(urls[..r.attempted], env)
            && (r.attempted < |urls| ==> |r.collected| >= maxTools)
            && (forall n :: 0 <= n < r.attempted ==> |Harvest(urls[..n], env)| < maxTools)
  {
    assert urls[0..] == urls;
    CollectFromCharacterised(urls, maxTools, env, 0);
  }

  /** The loop never holds more than `max(maxTools, 0)` summaries. */
  lemma CollectBounded(urls: seq<Url>, maxTools: int, env: Env)
    ensures |Collect(urls, maxTools, env).collected| <= if maxTools < 0 then 0 else maxTools
  {
    var r := Collect(urls, maxTools, env);
    CollectCharacterised(urls, maxTools, env);
    if r.attempted > 0 {
      var n := r.attempted - 1;
      VisitOneMore(urls, n, env);
      assert |Harvest(urls[..n], env)| < maxTools;
    }
  }

  /**
   * The loop downloads the filtered URLs in order up to `attempted` and no URL
   * after it; every kept summary carries the Tool Name marker; each visit adds
   * at most one summary; and every visit but those with blank text pauses once.
   */
  lemma CollectEffects(urls: seq<Url>, maxTools: int, env: Env)
    ensures var r := Collect(urls, maxTools, env);
            && r.attempted <= |urls|
            && Downloaded(r.events) == urls[..r.attempted]
            && |r.collected| <= r.attempted
            && (forall k :: 0 <= k < |r.collected| ==> Contains(r.collected[k], ToolNameMarker))
            && multiset(r.events)[Pause] == r.attempted - CountEmpty(urls[..r.attempted], env)
  {
    var r := Collect(urls, maxTools, env);
    CollectCharacterised(urls, maxTools, env);
    TraceDownloads(urls[..r.attempted], env);
    TracePauses(urls[..r.attempted], env);
  }

  // ---------------------------------------------------------------------------
  // Writing and posting the digest

  /** What a run leaves behind: the text written to ai_tools_weekly_digest.txt and the message posted to Teams. */
  datatype Output = Output(written: Option<string>, posted: Option<string>)

  /** The `message` field of the payload `send_to_teams` posts. */
  function TeamsMessage(message: string): string {
    TeamsBanner + message
  }

  /**
   * The end of `run_digest`: nothing when nothing was collected; otherwise the
   * summaries joined by the separator are written, and posted under a title
   * when `postToTeams` is set.
   */
  function Publish(collected: seq<string>, postToTeams: bool): (o: Output)
    ensures o.written.None? <==> collected == []
    ensures o.written.Some? ==> o.written.value == Join(collected, Separator)
    ensures o.posted.Some? <==> collected != [] && postToTeams
    ensures o.posted.Some? ==> o.posted.value == TeamsBanner + DigestTitle + o.written.value
  {
    if collected == [] then Output(None, None)
    else
      var formatted := Join(collected, Separator);
      Output(Some(formatted), if postToTeams then Some(TeamsMessage(DigestTitle + formatted)) else None)
  }

  /** One run of `run_digest`: the filtered URLs, the loop's final state and what was written and posted. */
  datatype DigestRun = DigestRun(filtered: seq<Url>, progress: Progress, output: Output)

  function Digest(maxTools: int, postToTeams: bool, env: Env): DigestRun {
    var filtered := FilterUrls(env.search(SearchQuery, SearchResults));
    var progress := Collect(filtered, maxTools, env);
    DigestRun(filtered, progress, Publish(progress.collected, postToTeams))
  }

  /**
   * In the written digest, the block of the `k`-th summary starts at its
   * offset in the join, carries the Tool Name marker inside it, and is followed
   * by exactly one separator when another block comes next.
   */
  lemma DigestFileLayout(maxTools: int, postToTeams: bool, env: Env, k: nat)
    requires k < |Digest(maxTools, postToTeams, env).progress.collected|
    ensures var run := Digest(maxTools, postToTeams, env);
            var collected := run.progress.collected;
            var start := PartOffset(collected, Separator, k);
            && run.output.written.Some?
            && OccursAt(run.output.written.value, collected[k], start)
            && (exists i :: start <= i <= start + |collected[k]| - |ToolNameMarker|
                            && OccursAt(run.output.written.value, ToolNameMarker, i))
            && (k + 1 < |collected| ==> OccursAt(run.output.written.value, Separator, start + |collected[k]|))
  {
    var run := Digest(maxTools, postToTeams, env);
    var collected := run.progress.collected;
    var file := run.output.written.value;
    var start := PartOffset(collected, Separator, k);
    JoinLayout(collected, Separator, k);
    CollectEffects(run.filtered, maxTools, env);
    ContainsIffOccurs(collected[k], ToolNameMarker);
    var j :| OccursAt(collected[k], ToolNameMarker, j);
    OccursWithin(file, collected[k], ToolNameMarker, start, j);
  }

  /** Appending three calls one at a time appends them in that order. */
  lemma AppendThree<T>(s: seq<T>, a: T, b: T, c: T)
    ensures s + [a] + [b] + [c] == s + [a, b, c]
  {
    assert [a] + [b] + [c] == [a, b, c];
  }

  /** One pass of the loop body over an article that cannot be extracted. */
  lemma {:induction false} StepFailed(urls: seq<Url>, i: nat, maxTools: int, env: Env, acc: Progress)
    requires i < |urls| && |acc.collected| < maxTools
    requires env.fetch(urls[i]).ExtractionFailed?
    ensures CollectFrom(urls[i..], maxTools, env, acc)
            == CollectFrom(urls[i + 1..], maxTools, env,
                           Progress(acc.collected, acc.attempted + 1, acc.events + [Download(urls[i])] + [Pause]))
  {
    var v := VisitUrl(urls[i], env);
    assert v == Visit(None, [Download(urls[i]), Pause]);
    CollectFromStep(urls, i, maxTools, env, acc);
    assert acc.collected + Kept(v) == acc.collected;
    assert acc.events + [Download(urls[i])] + [Pause] == acc.events + v.events;
  }

  /** One pass of the loop body over an article whose text is blank: the `continue`. */
  lemma {:induction false} StepBlank(urls: seq<Url>, i: nat, maxTools: int, env: Env, acc: Progress)
    requires i < |urls| && |acc.collected| < maxTools
    requires IsEmptyPage(env.fetch(urls[i]))
    ensures CollectFrom(urls[i..], maxTools, env, acc)
            == CollectFrom(urls[i + 1..], maxTools, env,
                           Progress(acc.collected, acc.attempted + 1, acc.events + [Download(urls[i])]))
  {
    var v := VisitUrl(urls[i], env);
    assert v == Visit(None, [Download(urls[i])]);
    CollectFromStep(urls, i, maxTools, env, acc);
    assert acc.collected + Kept(v) == acc.collected;
  }

  /** One pass of the loop body over an article with text: summarise, keep a valid summary, pause. */
  lemma {:induction false} StepSummarised(urls: seq<Url>, i: nat, maxTools: int, env: Env, acc: Progress, excerpt: string, summary: Option<string>)
    requires i < |urls| && |acc.collected| < maxTools
    requires env.fetch(urls[i]).Extracted? && !IsEmptyPage(env.fetch(urls[i]))
    requires excerpt == Take(Strip(env.fetch(urls[i]).text), ExcerptLength)
    requires summary == Summarize(excerpt, urls[i], env.llm)
    ensures var events := acc.events + [Download(urls[i])] + [Summarise(excerpt, urls[i])] + [Pause];
            var next := CollectFrom(urls[i..], maxTools, env, acc);
            && (IsValidSummary(summary) ==>
                  next == CollectFrom(urls[i + 1..], maxTools, env,
                                      Progress(acc.collected + [summary.value], acc.attempted + 1, events)))
            && (!IsValidSummary(summary) ==>
                  next == CollectFrom(urls[i + 1..], maxTools, env, Progress(acc.collected, acc.attempted + 1, events)))
  {
    var url := urls[i];
    var v := VisitUrl(url, env);
    assert v.events == [Download(url), Summarise(excerpt, url), Pause];
    assert v.summary == if IsValidSummary(summary) then summary else None;
    CollectFromStep(urls, i, maxTools, env, acc);
    AppendThree(acc.events, Download(url), Summarise(excerpt, url), Pause);
    if !IsValidSummary(summary) {
      assert acc.collected + Kept(v) == acc.collected;
    }
  }

  /**
   * The `for url in filtered` loop of `run_digest`, with its `break` once
   * `max_tools` summaries are held and its `continue` on blank text.
   */
  method CollectSummaries(filtered: seq<Url>, maxTools: int, env: Env) returns (progress: Progress)
    ensures progress == Collect(filtered, maxTools, env)
  {
    var collected: seq<string> := [];
    var attempted: nat := 0;
    var events: seq<Event> := [];
    for i := 0 to |filtered|
      invariant attempted == i
      invariant CollectFrom(filtered[i..], maxTools, env, Progress(collected, attempted, events))
                == Collect(filtered, maxTools, env)
    {
      var url := filtered[i];
      if |collected| >= maxTools {
        break;
      }
      ghost var before := Progress(collected, attempted, events);
      attempted := attempted + 1;
      events := events + [Download(url)];
      var page := env.fetch(url);
      if page.Extracted? {
        var content := Strip(page.text);
        if content == [] {
          StepBlank(filtered, i, maxTools, env, before);
          continue;
        }
        var excerpt := Take(content, ExcerptLength);
        events := events + [Summarise(excerpt, url)];
        var summary := Summarize(excerpt, url, env.llm);
        StepSummarised(filtered, i, maxTools, env, before, excerpt, summary);
        if IsValidSummary(summary) {
          collected := collected + [summary.value];
        }
      } else {
        StepFailed(filtered, i, maxTools, env, before);
      }
      events := events + [Pause];
    }
    progress := Progress(collected, attempted, events);
  }

  /** `run_digest`: search, filter, collect, then write and possibly post. */
  method RunDigest(maxTools: int, postToTeams: bool, env: Env) returns (run: DigestRun)
    ensures run == Digest(maxTools, postToTeams, env)
    ensures run.output.written.None? <==> run.progress.collected == []
    ensures run.output.posted.Some? ==> postToTeams && run.output.written.Some?
  {
    var urls := env.search(SearchQuery, SearchResults);
    var filtered := FilterUrls(urls);
    var progress := CollectSummaries(filtered, maxTools, env);
    if progress.collected == [] {
      return DigestRun(filtered, progress, Output(None, None));
    }
    var formatted := Join(progress.collected, Separator);
    var posted := if postToTeams then Some(TeamsMessage(DigestTitle + formatted)) else None;
    run := DigestRun(filtered, progress, Output(Some(formatted), posted));
  }
}
