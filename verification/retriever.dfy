/**
  * The GitHub issues retriever tool: `GithubIssuesRetrieverTool._run` and
  * `_arun`.
  *
  * The tool resolves the target issues of a repository (one issue by
  * number, or every issue of a state), and for each issue it assembles the
  * issue text, extracts the URLs in it, adds the repository's own URL,
  * fetches each URL (capped at 50,000 characters, failures tolerated), and
  * asks the language model for a structured record of the text. The record
  * the model returns is what the response holds. The fetched link documents
  * are computed and then dropped, and no chunks are computed.
  *
  * The GitHub client, the HTTP fetch and the language model are parameters:
  * `getRepo` stands for `client.get_repo`, `Repo` for the repository
  * object, `fetch` for `requests.get(url, timeout=5).text`, and `summarize`
  * for the structured-output model call. `None` from any of them stands for
  * a raised exception.
  */
module Retriever {
  import opened Wrappers
  import UrlExtract

  /** The tool's arguments (`GithubIssuesRetrieverArgs`). */
  datatype RetrieverArgs = RetrieverArgs(
    repoName: string,
    state: string,
    issueNumber: Option<int>,
    chunkSize: int,
    chunkOverlap: int)

  /** One extracted hyperlink and its fetched content (`IssueLinkDoc`). */
  datatype IssueLinkDoc = IssueLinkDoc(url: string, content: string)

  /** One chunk of an issue's text (`IssueChunk`). */
  datatype IssueChunk = IssueChunk(issueNumber: int, chunkIndex: int, text: string)

  /** The per-issue record (`IssueRecord`); the pipeline appends whatever the
      model returned in this shape. */
  datatype IssueRecord = IssueRecord(
    issueNumber: int,
    summary: string,
    links: seq<IssueLinkDoc>,
    chunks: seq<IssueChunk>)

  /** The tool's response (`GithubIssuesRetrieverResponse`). */
  datatype RetrieverResponse = RetrieverResponse(issues: seq<IssueRecord>)

  /** An issue as the tracker returns it: number, title, nullable body, and
      the bodies of its comments in tracker order. */
  datatype Issue = Issue(number: int, title: string, body: Option<string>, comments: seq<string>)

  /** A repository object: `get_issue(number=...)` and
      `list(get_issues(state=...))`, with `None` for a call that raised. */
  datatype Repo = Repo(getIssue: int -> Option<Issue>, getIssues: string -> Option<seq<Issue>>)

  /** What `requests.get(url, timeout=5).text` yields: the response text
      (whatever the status code), or an exception. */
  datatype FetchResult = Fetched(text: string) | FetchFailed

  /** The exceptions that end a run. */
  datatype RetrieveError =
    | RepoLookupFailed
    | IssueLookupFailed(number: int)
    | IssueListFailed
    | SummaryFailed(issueNumber: int)

  /** The argument defaults of the schema and of `_run`. */
  function DefaultArgs(repoName: string): RetrieverArgs {
    RetrieverArgs(repoName, "open", None, 1000, 100)
  }

  // ---------------------------------------------------------------------
  // Issue text assembly

  /** The separator placed before each comment. */
  const CommentMarker: string := "\n\n[Comment]\n"

  /** `issue.body or ""`. */
  function BodyText(body: Option<string>): string {
    match body
    case None => ""
    case Some(b) => b
  }

  /** Title, blank line, body. */
  function Header(issue: Issue): string {
    issue.title + "\n\n" + BodyText(issue.body)
  }

  /** The comment part of the text: each comment, in order, after the marker. */
  function CommentsText(comments: seq<string>): string
    decreases |comments|
  {
    if comments == [] then ""
    else CommentsText(comments[..|comments| - 1]) + CommentMarker + comments[|comments| - 1]
  }

  /** The full text of an issue, as the pipeline builds it. */
  function IssueText(issue: Issue): string {
    Header(issue) + CommentsText(issue.comments)
  }

  /** Builds the issue text with the source's accumulator loop over comments. */
  method AssembleText(issue: Issue) returns (fullText: string)
    ensures fullText == IssueText(issue)
  {
    fullText := issue.title + "\n\n" + BodyText(issue.body);
    for i := 0 to |issue.comments|
      invariant fullText == Header(issue) + CommentsText(issue.comments[..i])
    {
      assert issue.comments[..i + 1][..i] == issue.comments[..i];
      fullText := fullText + CommentMarker + issue.comments[i];
    }
    assert issue.comments[..|issue.comments|] == issue.comments;
  }

  /** The comment text of a concatenation is the concatenation of the
      comment texts. */
  lemma {:induction false} CommentsTextAppend(a: seq<string>, b: seq<string>)
    ensures CommentsText(a + b) == CommentsText(a) + CommentsText(b)
    decreases |b|
  {
    if b == [] {
      assert a + b == a;
    } else {
      var init := b[..|b| - 1];
      assert (a + b)[..|a + b| - 1] == a + init;
      assert (a + b)[|a + b| - 1] == b[|b| - 1];
      CommentsTextAppend(a, init);
    }
  }

  /** The issue text splits at every comment: what comes before comment `k`
      (header and earlier comments), the marker, comment `k` in full, and
      the later comments. So every comment appears, untruncated, in tracker
      order. */
  lemma IssueTextAtComment(issue: Issue, k: nat)
    requires k < |issue.comments|
    ensures IssueText(issue) ==
      Header(issue) + CommentsText(issue.comments[..k]) + CommentMarker
      + issue.comments[k] + CommentsText(issue.comments[k + 1..])
  {
    var cs := issue.comments;
    assert cs == cs[..k + 1] + cs[k + 1..];
    CommentsTextAppend(cs[..k + 1], cs[k + 1..]);
    assert cs[..k + 1][..k] == cs[..k];
  }

  /** Sum of the lengths of the marker and the comment, over all comments. */
  function CommentsLength(comments: seq<string>): nat
    decreases |comments|
  {
    if comments == [] then 0
    else CommentsLength(comments[..|comments| - 1]) + |CommentMarker| + |comments[|comments| - 1]|
  }

  /** Nothing is truncated: the text is exactly as long as its parts. */
  lemma {:induction false} IssueTextLength(issue: Issue)
    ensures |IssueText(issue)| ==
      |issue.title| + 2 + |BodyText(issue.body)| + CommentsLength(issue.comments)
  {
    CommentsLengthIsLength(issue.comments);
  }

  lemma {:induction false} CommentsLengthIsLength(comments: seq<string>)
    ensures |CommentsText(comments)| == CommentsLength(comments)
    decreases |comments|
  {
    if comments != [] {
      CommentsLengthIsLength(comments[..|comments| - 1]);
    }
  }

  /** A title "T", body "B" and comments "C1", "C2" give
      "T\n\nB\n\n[Comment]\nC1\n\n[Comment]\nC2"; a missing body reads as
      an empty one. */
  lemma IssueTextExample(n: int)
    ensures IssueText(Issue(n, "T", Some("B"), ["C1", "C2"]))
      == "T\n\nB\n\n[Comment]\nC1\n\n[Comment]\nC2"
    ensures IssueText(Issue(n, "T", None, [])) == IssueText(Issue(n, "T", Some(""), []))
      == "T\n\n"
  {
    var cs := ["C1", "C2"];
    assert CommentsText(["C1"]) == CommentMarker + "C1" by {
      assert ["C1"][..0] == [];
    }
    assert CommentsText(cs) == CommentMarker + "C1" + CommentMarker + "C2" by {
      assert cs[..1] == ["C1"];
    }
    ExampleSpelling();
  }

  lemma ExampleSpelling()
    ensures (("T" + "\n\n") + "B") + (((CommentMarker + "C1") + CommentMarker) + "C2")
      == "T\n\nB\n\n[Comment]\nC1\n\n[Comment]\nC2"
  {
  }

  // ---------------------------------------------------------------------
  // URLs and link documents

  /** The repository's own URL, `f"https://github.com/{repo_name}"`. */
  function RepoUrl(repoName: string): string {
    GithubPrefix + repoName
  }

  const GithubPrefix: string := "https://github.com/"

  /** A repository name without whitespace gives a URL that extraction
      finds whole: mentioned in an issue on its own, it is already in the
      extracted list and is not appended a second time. */
  lemma RepoUrlIsExtracted(repoName: string)
    requires forall j :: 0 <= j < |repoName| ==> !UrlExtract.IsSpace(repoName[j])
    ensures UrlExtract.IsUrl(RepoUrl(repoName))
    ensures UrlExtract.Urls(RepoUrl(repoName)) == [RepoUrl(repoName)]
  {
    var u := RepoUrl(repoName);
    assert UrlExtract.HttpsAt(u, 0);
    forall j | 0 <= j < |u| ensures !UrlExtract.IsSpace(u[j]) {
      if j < |GithubPrefix| {
        assert u[j] == GithubPrefix[j];
        UrlExtract.PrintableNotSpace(u[j]);
      } else {
        assert u[j] == repoName[j - |GithubPrefix|];
      }
    }
    UrlExtract.SingleUrl(u);
  }

  /** The cap on a link document's content. */
  const MaxLinkContent: nat := 50000

  /** The content stored for one fetch: `resp.text[:50_000]`, or `""` when
      the fetch raised. */
  function CappedContent(f: FetchResult): (c: string)
    ensures |c| <= MaxLinkContent
    ensures f.FetchFailed? ==> c == ""
    ensures f.Fetched? ==> |c| == if |f.text| < MaxLinkContent then |f.text| else MaxLinkContent
    ensures f.Fetched? ==> c == f.text[..|c|]
  {
    match f
    case FetchFailed => ""
    case Fetched(text) => if |text| <= MaxLinkContent then text else text[..MaxLinkContent]
  }

  /** One link document per URL, in order, duplicates included: the loop
      over `urls` with its `try`/`except` around each fetch. */
  method FetchLinkDocs(urls: seq<string>, fetch: string -> FetchResult) returns (docs: seq<IssueLinkDoc>)
    ensures |docs| == |urls|
    ensures forall i :: 0 <= i < |urls| ==>
      docs[i].url == urls[i] && docs[i].content == CappedContent(fetch(urls[i]))
  {
    docs := [];
    for i := 0 to |urls|
      invariant |docs| == i
      invariant forall j :: 0 <= j < i ==>
        docs[j].url == urls[j] && docs[j].content == CappedContent(fetch(urls[j]))
    {
      var content: string;
      var response := fetch(urls[i]);
      if response.FetchFailed? {
        content := "";
      } else if |response.text| <= MaxLinkContent {
        content := response.text;
      } else {
        content := response.text[..MaxLinkContent];
      }
      docs := docs + [IssueLinkDoc(urls[i], content)];
    }
  }

  // ---------------------------------------------------------------------
  // One issue

  /** What one pass of the issue loop computes: the full text, the URLs to
      fetch, the link documents, and the model's answer (`None` if the model
      call raised). Only the answer reaches the response. */
  datatype IssueTrace = IssueTrace(
    fullText: string,
    urls: seq<string>,
    linkDocs: seq<IssueLinkDoc>,
    summary: Option<IssueRecord>)

  /** The body of the issue loop. */
  method ProcessIssue(
    repoName: string,
    issue: Issue,
    fetch: string -> FetchResult,
    summarize: string -> Option<IssueRecord>)
    returns (trace: IssueTrace)
    ensures trace.fullText == IssueText(issue)
    // the extracted URLs come first, unchanged and in order ...
    ensures |UrlExtract.Urls(trace.fullText)| <= |trace.urls|
    ensures trace.urls[..|UrlExtract.Urls(trace.fullText)|] == UrlExtract.Urls(trace.fullText)
    // ... the repository URL is always there, appended only when it was missing
    ensures RepoUrl(repoName) in trace.urls
    ensures |trace.urls| == |UrlExtract.Urls(trace.fullText)|
      + (if RepoUrl(repoName) in UrlExtract.Urls(trace.fullText) then 0 else 1)
    ensures |trace.linkDocs| == |trace.urls|
    ensures forall i :: 0 <= i < |trace.urls| ==>
      trace.linkDocs[i] == IssueLinkDoc(trace.urls[i], CappedContent(fetch(trace.urls[i])))
    ensures trace.summary == summarize(IssueText(issue))
  {
    var fullText := AssembleText(issue);
    var urls := UrlExtract.Urls(fullText);
    var repoUrl := RepoUrl(repoName);
    if repoUrl !in urls {
      urls := urls + [repoUrl];
    }
    var linkDocs := FetchLinkDocs(urls, fetch);
    var summary := summarize(fullText);
    trace := IssueTrace(fullText, urls, linkDocs, summary);
  }

  // ---------------------------------------------------------------------
  // The whole run

  /** The issues a run processes: the one requested by number (the state
      filter is then not consulted), or every issue of the given state. */
  function SelectIssues(repo: Repo, state: string, issueNumber: Option<int>): (r: Result<seq<Issue>, RetrieveError>)
    ensures r.Ok? <==>
      if issueNumber.Some? then repo.getIssue(issueNumber.value).Some? else repo.getIssues(state).Some?
    ensures issueNumber.Some? && r.Ok? ==> r.value == [repo.getIssue(issueNumber.value).value]
    ensures issueNumber.None? && r.Ok? ==> r.value == repo.getIssues(state).value
    ensures issueNumber.Some? && r.Err? ==> r.error == IssueLookupFailed(issueNumber.value)
    ensures issueNumber.None? && r.Err? ==> r.error == IssueListFailed
  {
    match issueNumber
    case Some(n) =>
      (match repo.getIssue(n)
       case Some(issue) => Ok([issue])
       case None => Err(IssueLookupFailed(n)))
    case None =>
      (match repo.getIssues(state)
       case Some(issues) => Ok(issues)
       case None => Err(IssueListFailed))
  }

  /** The records of `issues`, one model answer per issue in order; the
      first model failure ends the run. */
  function Summaries(issues: seq<Issue>, summarize: string -> Option<IssueRecord>): Result<seq<IssueRecord>, RetrieveError>
    decreases |issues|
  {
    if issues == [] then Ok([])
    else
      var last := issues[|issues| - 1];
      match Summaries(issues[..|issues| - 1], summarize)
      case Err(e) => Err(e)
      case Ok(records) =>
        match summarize(IssueText(last))
        case None => Err(SummaryFailed(last.number))
        case Some(record) => Ok(records + [record])
  }

  /** Once a model call has failed, later issues do not change the outcome. */
  lemma {:induction false} SummariesAbort(done: seq<Issue>, rest: seq<Issue>, summarize: string -> Option<IssueRecord>)
    requires Summaries(done, summarize).Err?
    ensures Summaries(done + rest, summarize) == Summaries(done, summarize)
    decreases |rest|
  {
    if rest != [] {
      var init := rest[..|rest| - 1];
      assert (done + rest)[..|done + rest| - 1] == done + init;
      SummariesAbort(done, init, summarize);
    } else {
      assert done + rest == done;
    }
  }

  /** One more pass of the issue loop appends the model's record. */
  lemma SummariesNext(issues: seq<Issue>, i: nat, summarize: string -> Option<IssueRecord>)
    requires i < |issues| && Summaries(issues[..i], summarize).Ok?
    requires summarize(IssueText(issues[i])).Some?
    ensures Summaries(issues[..i + 1], summarize) ==
      Ok(Summaries(issues[..i], summarize).value + [summarize(IssueText(issues[i])).value])
  {
    assert issues[..i + 1][..i] == issues[..i];
  }

  /** A failing model call after successful ones fails the whole loop with
      that issue's error. */
  lemma SummariesFailAt(issues: seq<Issue>, i: nat, summarize: string -> Option<IssueRecord>)
    requires i < |issues| && Summaries(issues[..i], summarize).Ok?
    requires summarize(IssueText(issues[i])).None?
    ensures Summaries(issues, summarize) == Err(SummaryFailed(issues[i].number))
  {
    assert Summaries(issues[..i + 1], summarize) == Err(SummaryFailed(issues[i].number)) by {
      assert issues[..i + 1][..i] == issues[..i];
    }
    SummariesAbort(issues[..i + 1], issues[i + 1..], summarize);
    assert issues[..i + 1] + issues[i + 1..] == issues;
  }

  /** Every issue's text is summarized successfully. */
  predicate AllSummarized(issues: seq<Issue>, summarize: string -> Option<IssueRecord>) {
    forall i :: 0 <= i < |issues| ==> summarize(IssueText(issues[i])).Some?
  }

  /** `Summaries` succeeds exactly when every model call does, and then
      holds one record per issue, in order, each the model's answer for that
      issue's own text. Otherwise it fails with the first failing issue. */
  lemma {:induction false} SummariesSpec(issues: seq<Issue>, summarize: string -> Option<IssueRecord>)
    ensures Summaries(issues, summarize).Ok? <==> AllSummarized(issues, summarize)
    ensures Summaries(issues, summarize).Ok? ==>
      |Summaries(issues, summarize).value| == |issues|
      && forall i :: 0 <= i < |issues| ==>
        Summaries(issues, summarize).value[i] == summarize(IssueText(issues[i])).value
    ensures Summaries(issues, summarize).Err? ==>
      exists k :: 0 <= k < |issues| && summarize(IssueText(issues[k])).None?
        && AllSummarized(issues[..k], summarize)
        && Summaries(issues, summarize).error == SummaryFailed(issues[k].number)
    decreases |issues|
  {
    if issues != [] {
      var n := |issues| - 1;
      var init := issues[..n];
      SummariesSpec(init, summarize);
      assert forall i :: 0 <= i < n ==> init[i] == issues[i];
      if Summaries(init, summarize).Err? {
        var k :| 0 <= k < |init| && summarize(IssueText(init[k])).None?
          && AllSummarized(init[..k], summarize)
          && Summaries(init, summarize).error == SummaryFailed(init[k].number);
        assert init[..k] == issues[..k];
      } else if summarize(IssueText(issues[n])).None? {
        assert issues[..n] == init;
      }
    }
  }

  /** What a run returns: `get_repo`, then issue selection, then one model
      record per issue; the first exception aborts the run. The chunk
      parameters and the fetched link documents play no part in it. */
  function Retrieve(
    getRepo: string -> Option<Repo>,
    args: RetrieverArgs,
    summarize: string -> Option<IssueRecord>)
    : Result<RetrieverResponse, RetrieveError>
  {
    match getRepo(args.repoName)
    case None => Err(RepoLookupFailed)
    case Some(repo) =>
      match SelectIssues(repo, args.state, args.issueNumber)
      case Err(e) => Err(e)
      case Ok(issues) =>
        match Summaries(issues, summarize)
        case Err(e) => Err(e)
        case Ok(records) => Ok(RetrieverResponse(records))
  }

  /** `_run`: selects the issues and runs the issue loop, appending the
      model's record for each. */
  method Run(
    getRepo: string -> Option<Repo>,
    args: RetrieverArgs,
    fetch: string -> FetchResult,
    summarize: string -> Option<IssueRecord>)
    returns (r: Result<RetrieverResponse, RetrieveError>)
    ensures r == Retrieve(getRepo, args, summarize)
  {
    var repoOrNone := getRepo(args.repoName);
    if repoOrNone.None? {
      return Err(RepoLookupFailed);
    }
    var repo := repoOrNone.value;
    var issues: seq<Issue>;
    if args.issueNumber.Some? {
      var issue := repo.getIssue(args.issueNumber.value);
      if issue.None? {
        return Err(IssueLookupFailed(args.issueNumber.value));
      }
      issues := [issue.value];
    } else {
      var all := repo.getIssues(args.state);
      if all.None? {
        return Err(IssueListFailed);
      }
      issues := all.value;
    }
    var records: seq<IssueRecord> := [];
    for i := 0 to |issues|
      invariant Summaries(issues[..i], summarize) == Ok(records)
    {
      var trace := ProcessIssue(args.repoName, issues[i], fetch, summarize);
      if trace.summary.None? {
        SummariesFailAt(issues, i, summarize);
        return Err(SummaryFailed(issues[i].number));
      }
      SummariesNext(issues, i, summarize);
      records := records + [trace.summary.value];
    }
    assert issues[..|issues|] == issues;
    r := Ok(RetrieverResponse(records));
  }

  /** `_arun`: delegates to `_run` with the same five arguments. */
  method RunAsync(
    getRepo: string -> Option<Repo>,
    args: RetrieverArgs,
    fetch: string -> FetchResult,
    summarize: string -> Option<IssueRecord>)
    returns (r: Result<RetrieverResponse, RetrieveError>)
    ensures r == Retrieve(getRepo, args, summarize)
  {
    r := Run(getRepo, args, fetch, summarize);
  }

  /** With an issue number, a successful run holds exactly one record, the
      model's answer for that issue's text, and the state filter does not
      matter. */
  lemma RetrieveOneIssue(
    getRepo: string -> Option<Repo>,
    args: RetrieverArgs,
    otherState: string,
    summarize: string -> Option<IssueRecord>)
    requires args.issueNumber.Some?
    ensures Retrieve(getRepo, args, summarize) == Retrieve(getRepo, args.(state := otherState), summarize)
    ensures Retrieve(getRepo, args, summarize).Ok? ==>
      getRepo(args.repoName).Some?
      && getRepo(args.repoName).value.getIssue(args.issueNumber.value).Some?
      && Retrieve(getRepo, args, summarize).value.issues ==
        [summarize(IssueText(getRepo(args.repoName).value.getIssue(args.issueNumber.value).value)).value]
  {
    var r := Retrieve(getRepo, args, summarize);
    if r.Ok? {
      var repo := getRepo(args.repoName).value;
      var issue := repo.getIssue(args.issueNumber.value).value;
      SummariesSpec([issue], summarize);
    }
  }

  /** Without an issue number, and when every model call succeeds, the
      response holds one record per issue the tracker lists for the state,
      in the tracker's order. */
  lemma RetrieveAllIssues(
    getRepo: string -> Option<Repo>,
    args: RetrieverArgs,
    issues: seq<Issue>,
    summarize: string -> Option<IssueRecord>)
    requires args.issueNumber.None?
    requires getRepo(args.repoName).Some?
    requires getRepo(args.repoName).value.getIssues(args.state) == Some(issues)
    requires AllSummarized(issues, summarize)
    ensures Retrieve(getRepo, args, summarize).Ok?
    ensures |Retrieve(getRepo, args, summarize).value.issues| == |issues|
    ensures forall i :: 0 <= i < |issues| ==>
      Retrieve(getRepo, args, summarize).value.issues[i] == summarize(IssueText(issues[i])).value
  {
    SummariesSpec(issues, summarize);
  }

  /** A call with only a repository name processes every open issue: it
      succeeds exactly when the repository and its open-issue listing are
      found and every model call succeeds, and then holds one record per
      open issue, in listing order. */
  lemma DefaultRunListsOpen(getRepo: string -> Option<Repo>, repoName: string, summarize: string -> Option<IssueRecord>)
    ensures Retrieve(getRepo, DefaultArgs(repoName), summarize).Ok? <==>
      getRepo(repoName).Some? && getRepo(repoName).value.getIssues("open").Some?
      && AllSummarized(getRepo(repoName).value.getIssues("open").value, summarize)
    ensures Retrieve(getRepo, DefaultArgs(repoName), summarize).Ok? ==>
      var open := getRepo(repoName).value.getIssues("open").value;
      |Retrieve(getRepo, DefaultArgs(repoName), summarize).value.issues| == |open|
      && forall i :: 0 <= i < |open| ==>
        Retrieve(getRepo, DefaultArgs(repoName), summarize).value.issues[i] == summarize(IssueText(open[i])).value
  {
    if getRepo(repoName).Some? && getRepo(repoName).value.getIssues("open").Some? {
      SummariesSpec(getRepo(repoName).value.getIssues("open").value, summarize);
    }
  }

  /** A model failure on any selected issue fails the whole run: no partial
      response is returned. */
  lemma RetrieveNoPartialResult(
    getRepo: string -> Option<Repo>,
    args: RetrieverArgs,
    issues: seq<Issue>,
    k: nat,
    summarize: string -> Option<IssueRecord>)
    requires getRepo(args.repoName).Some?
    requires SelectIssues(getRepo(args.repoName).value, args.state, args.issueNumber) == Ok(issues)
    requires k < |issues| && summarize(IssueText(issues[k])).None?
    ensures Retrieve(getRepo, args, summarize).Err?
  {
    SummariesSpec(issues, summarize);
  }
}
