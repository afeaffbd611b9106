# GitHub issues retriever — a Dafny model

This project models the core of GitissueRet, a LangChain tool that an agent
calls with a repository name and either an issue number or an issue state.
For each selected issue the tool does the following:

- joins the title, the body and every comment into one text;
- extracts the `http(s)://` links from that text with
  `re.findall(r"https?://\S+")`;
- adds the repository's own GitHub URL;
- fetches every link, capping each page at 50,000 characters and storing
  `""` when the fetch fails;
- asks a chat model for a structured `IssueRecord` of the text.

The response lists the records the model returned, one per issue, in order.

The model also covers the YAML configuration loader. The loader builds the
tool from a file that must hold a non-empty `github_token`. The model name
defaults to `llama2`.

The project has four modules:

- `Wrappers` (`wrappers.dfy`): `Option`, `Result` and `Outcome`. These stand
  in for exceptions.
- `UrlExtract` (`url_extract.dfy`): the regular-expression scan. It is a
  left-to-right, non-overlapping search. A match is `http://` or `https://`
  followed by the longest non-empty run of non-whitespace characters.
  "Whitespace" is the set of characters Python's `\s` matches in a `str`
  pattern (`str.isspace`).
- `Retriever` (`retriever.dfy`) models three things:
  - the pydantic classes, as datatypes;
  - the stages of `_run`, as methods (text assembly, link fetching, one pass
    of the issue loop, the whole run), each proved against a specification
    function;
  - `_arun`.
- `ConfigLoader` (`config_loader.dfy`): `load_config`, `validate_config`,
  `create_tool_from_config` and `from_config`. It works on a parsed YAML
  value. Python's truthiness, `in` and `[...]` are modelled explicitly. `in`
  is a key test on a mapping, an element test on a list and a substring test
  on a string, and raises `TypeError` on `None`, a boolean or a number.
  `[...]` with a string key raises `TypeError` on anything but a mapping.

The GitHub client, the HTTP fetch and the chat model are parameters of the
model. `getRepo` stands for `client.get_repo`. A `Repo` holds `get_issue`
and `get_issues`. `fetch` stands for `requests.get(url, timeout=5).text`.
`summarize` stands for the structured-output model call, whose prompt is
fixed. `None` or `FetchFailed` from any of them stands for a raised
exception. Every run is a function of these parameters, so a URL fetched
twice gives the same result both times.

## Model

| member | source | states |
|---|---|---|
| Retriever.AssembleText | GitissueRet/github_issues_retriever_tool.py:179-181 | The accumulator loop builds exactly `IssueText`: title, blank line, body (`""` if absent), then each comment after "\n\n[Comment]\n", in order. |
| Retriever.CommentsTextAppend | GitissueRet/github_issues_retriever_tool.py:180-181 | The comment part of the text distributes over concatenation of comment lists. |
| Retriever.IssueTextAtComment | GitissueRet/github_issues_retriever_tool.py:179-181 | The text splits at every comment k: header and earlier comments, the marker, comment k in full, then the later comments. Every comment appears untruncated and in tracker order. |
| Retriever.IssueTextLength | GitissueRet/github_issues_retriever_tool.py:179-181 | The text's length is the title plus 2 plus the body plus, per comment, the 12-character marker and the comment. Nothing is dropped. |
| Retriever.CommentsLengthIsLength | GitissueRet/github_issues_retriever_tool.py:180-181 | The comment part is as long as the sum of markers and comments. |
| Retriever.IssueTextExample | GitissueRet/github_issues_retriever_tool.py:179-181 | "T", "B", ["C1","C2"] give "T\n\nB\n\n[Comment]\nC1\n\n[Comment]\nC2". A missing body reads as an empty one. |
| UrlExtract.RunEndIsLongestRun | GitissueRet/github_issues_retriever_tool.py:186 | `\S+` is greedy: the run end is whitespace or the end of the text, and everything before it is non-whitespace. |
| UrlExtract.FindFromSound | GitissueRet/github_issues_retriever_tool.py:186 | Every span the scan reports from position p is a match at or after p, and the spans are ordered and disjoint. |
| UrlExtract.Matches | GitissueRet/github_issues_retriever_tool.py:186 | Every match span is non-empty and inside the text. |
| UrlExtract.Urls | GitissueRet/github_issues_retriever_tool.py:186 | One extracted string per match. |
| UrlExtract.MatchIsUrl | GitissueRet/github_issues_retriever_tool.py:186 | The text of any match has a scheme, at least one character after it, and no whitespace. |
| UrlExtract.UrlsAreUrls | GitissueRet/github_issues_retriever_tool.py:186 | Every extracted URL has that shape, and each match ends at whitespace or at the end of the text. |
| UrlExtract.FindFromCovers | GitissueRet/github_issues_retriever_tool.py:186 | Any position at or after p where the pattern matches lies inside a span the scan reports. |
| UrlExtract.MatchesAreFindall | GitissueRet/github_issues_retriever_tool.py:186 | `Matches` is findall's scan: every span is a match, the spans are ordered and non-overlapping, and no position where the pattern matches is skipped. |
| UrlExtract.FindFromShift | GitissueRet/github_issues_retriever_tool.py:186 | The scan of a text's tail finds the tail's own matches, moved by the tail's offset. |
| UrlExtract.FindFromPrefix | GitissueRet/github_issues_retriever_tool.py:186 | When whitespace follows a prefix, the scan finds the prefix's own matches, then whatever it finds from the end of the prefix. No match runs across the whitespace. |
| UrlExtract.MatchesAcrossSpace | GitissueRet/github_issues_retriever_tool.py:186 | The matches of `a + [ws] + b` are those of a, followed by those of b shifted past the whitespace. |
| UrlExtract.UrlsAcrossSpace | GitissueRet/github_issues_retriever_tool.py:186 | Across a whitespace character, the extracted URLs are those of a followed by those of b, duplicates included. |
| UrlExtract.SingleUrl | GitissueRet/github_issues_retriever_tool.py:186 | A URL on its own is extracted whole, exactly once. |
| UrlExtract.RepeatedUrlKept | GitissueRet/github_issues_retriever_tool.py:186 | A URL that appears twice is extracted twice (findall does not de-duplicate). |
| Retriever.RepoUrlIsExtracted | GitissueRet/github_issues_retriever_tool.py:186-191 | For a repository name without whitespace, "https://github.com/<name>" is a URL that extraction finds whole. So when it is mentioned on its own it is already listed and is not appended again. |
| Retriever.CappedContent | GitissueRet/github_issues_retriever_tool.py:195-199 | Stored content is at most 50,000 characters. It is a prefix of the page, of length min(len, 50000), and `""` after a failed fetch. |
| Retriever.FetchLinkDocs | GitissueRet/github_issues_retriever_tool.py:193-200 | One link document per URL, in order and duplicates included, each holding its URL and the capped fetch result. A failure never aborts the loop. |
| Retriever.ProcessIssue | GitissueRet/github_issues_retriever_tool.py:177-211 | One issue pass produces three things. First, the assembled text. Second, the URLs to fetch: the extracted URLs unchanged and in order, then the repository URL, which is always present and appended only when missing. Third, one link document per URL to fetch, and the model's answer for the text. |
| Retriever.SelectIssues | GitissueRet/github_issues_retriever_tool.py:171-175 | Selection succeeds iff the lookup it makes succeeds. With an issue number the result is exactly `[get_issue(n)]`, else that lookup's failure. Without one it is exactly the state's listing, else the listing's failure. |
| Retriever.SummariesFailAt | GitissueRet/github_issues_retriever_tool.py:205-219 | If the model call for issue i fails after every earlier call succeeded, the whole loop fails with issue i's error. |
| Retriever.SummariesAbort | GitissueRet/github_issues_retriever_tool.py:177-220 | Once a model call has failed, later issues do not change the outcome. |
| Retriever.SummariesSpec | GitissueRet/github_issues_retriever_tool.py:177-220 | Record accumulation succeeds iff every model call does. Then record i is the model's answer for issue i's text. Otherwise the error names the first failing issue. |
| Retriever.Run | GitissueRet/github_issues_retriever_tool.py:137-222 | `_run` returns exactly `Retrieve`: repo lookup, issue selection, one record per issue, and the first failure aborts. The fetch results do not affect the result. |
| Retriever.RunAsync | GitissueRet/github_issues_retriever_tool.py:227-240 | `_arun` returns what `_run` returns for the same arguments. |
| Retriever.RetrieveOneIssue | GitissueRet/github_issues_retriever_tool.py:171-173 | With an issue number, the state does not matter. A success holds exactly one record, the model's answer for that issue. |
| Retriever.RetrieveAllIssues | GitissueRet/github_issues_retriever_tool.py:174-222 | Without an issue number, and with every model call succeeding, the response holds one record per listed issue, in listing order. |
| Retriever.DefaultRunListsOpen | GitissueRet/github_issues_retriever_tool.py:28-33 | A call with only a repository name (state "open", no issue number) succeeds iff the repository and its open-issue listing are found and every model call succeeds. It then holds one record per open issue, in listing order. |
| Retriever.RetrieveNoPartialResult | GitissueRet/github_issues_retriever_tool.py:205-222 | A model failure on any selected issue fails the whole run. No partial response is returned. |
| ConfigLoader.LoadConfig | GitissueRet/config_loader.py:13-42 | The document is returned iff the file exists, parses, and its document is truthy. A missing file, a YAML error and an empty document each give their own error. |
| ConfigLoader.ValidationSpec | GitissueRet/config_loader.py:45-62 | Validation passes iff the document is a mapping with a truthy token. On a mapping, a missing token is reported as missing and a falsy one as empty. A non-mapping always fails. |
| ConfigLoader.ValidateConfig | GitissueRet/config_loader.py:45-62 | The loop over the required fields, then the token check, gives exactly `Validation`. |
| ConfigLoader.ModelName | GitissueRet/config_loader.py:86 | The configured model if the key is present (whatever its value), else "llama2". |
| ConfigLoader.ToolFromConfigSpec | GitissueRet/config_loader.py:65-93 | A tool is built iff the file holds a mapping with a truthy token. The token is passed through unchanged and the model name is `ModelName`. A falsy document is rejected as empty, and a non-empty mapping without the token as missing it. |
| ConfigLoader.CreateToolFromConfig | GitissueRet/config_loader.py:65-93 | Load, validate, choose the model and build: exactly `ToolFromConfig`. |
| ConfigLoader.FromConfig | GitissueRet/config_loader.py:118-123 | The legacy entry point returns what `create_tool_from_config` returns. |

## Left out

- Network and GitHub I/O are parameters. The 5-second fetch timeout is part of `fetch`.
- A raised `get_comments()` call is not modelled. An issue's comments are a plain list.
- The text splitter built from `chunk_size` and `chunk_overlap` is never used by `_run`. Its constructor belongs to the LangChain library, so the `ValueError` it may raise for inconsistent sizes is not part of this model. The chunk parameters have no effect in the model.
- The record appended for an issue is whatever the model returned. The fetched link documents and the issue text are not copied into it, and no chunks are computed. The model reproduces this: `Retrieve` does not depend on `fetch`.
- The model's prompt, the structured-output parsing and the chat model itself are folded into `summarize`. A `None` answer stands for any exception.
- `state` is `Optional[str]` in the schema. The model takes a string and does not model `get_issues(state=None)`.
- `__init__` (the GitHub client and the default model "deepseek-r1:14b") and the callback managers are not modelled. Concurrency in `_arun` is not modelled either; it only delegates.
- `create_example_config`, file reading, YAML parsing and the `print` calls are not modelled. Parsing is the `ConfigFile` parameter.
- YAML floats, dates and non-string mapping keys are not represented in `Value`. Python's distinct exception classes are collapsed into `ConfigError`.
- `ChatOllama(model=...)` is not modelled. `ToolSettings` records the name it receives, whatever its type.
- `example_usage.py`, `test_github_tool.py` and `simple_llm.py` are callers and demos. They are not part of this model.
