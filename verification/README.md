# TestGen core, modelled in Dafny

TestGen suggests unit tests for the files of a GitHub repository and writes them. A FastAPI backend does the server side:
- It lists a repository's code files and guesses each file's language and test framework.
- It asks a chain of AI models for numbered test ideas and parses the numbered lines of the answer into suggestions.
- When nothing usable comes back, it falls back to five template suggestions.
- It keeps per-user sessions in memory.
- It cleans AI answers, file names, branch names and file paths.

A React frontend drives it. It has an analyzer page, a dashboard of the user's repositories, a repository page with a collapsible file tree, and the test generator page. The pages pass a snapshot to each other through the browser's session storage.

Modules follow the source files:

| module | models |
|---|---|
| `Backend` | `backend/main.py`: the in-memory session table and its cleanup, bearer tokens, logout, both suggestion endpoints (framework choice, the model cascade, line parsing, the fallback templates) and the file names the code endpoints suggest |
| `GithubDirect` | `backend/github_direct.py`: repository URL parsing, filtering of the repository listing, the extension and framework tables, and framework detection from the project structure |
| `Config` | `backend/config.py`: the AI model table, the language and framework tables and their lookups |
| `Utils` | `backend/utils.py`: token estimate and truncation, cleaning of AI answers, suggestion parsing, test file names, branch-name validation, commit messages, code extraction from fenced blocks, path sanitising |
| `Dashboard`, `RepositoryDetails`, `TestGenerator`, `RepoAnalyzer`, `FileSelector`, `Helpers` | the pages, the file selector and the helper functions of the frontend |
| `Text`, `Outcome`, `Selection`, `Handoff` | shared pieces: Python/JavaScript string operations, result types and error messages, the toggle-in-a-list selection, and the session-storage snapshot |

Modelling choices:
- Objects whose fields the source updates in place are classes with `modifies` clauses: the backend session table, the dashboard, analyzer and generator page state, and the storage slot.
- Pure computations are functions.
- Loops in the source are methods with loop invariants, each proved equal to a specification function.
- Every outside effect is a parameter: AI and GitHub replies, HTTP responses, the clock and `localeCompare`.

## Model

| member | source | states |
|---|---|---|
| Backend.ExpiredTokens | backend/main.py:64-73 | a session is expired exactly when it is more than 86400 seconds old; only existing tokens are listed |
| Backend.Survivors | backend/main.py:75-76 | cleanup keeps exactly the non-expired sessions, unchanged |
| Backend.SurvivorsPartition | backend/main.py:64-79 | the removed and kept sessions partition the table; no kept session is expired |
| Backend.SurvivorsIdempotent | backend/main.py:64-79 | a second cleanup at the same time removes nothing |
| Backend.CollectExpired | backend/main.py:68-73 | the loop lists each expired token exactly once |
| Backend.SessionStore.GithubTokenOf | backend/main.py:239-243 | an unknown session gives no GitHub token; a known one gives its stored token |
| Backend.SessionStore.CleanupSessions | backend/main.py:64-79 | the table becomes the survivors, and the count returned is the number of sessions removed |
| Backend.GetSessionToken | backend/main.py:232-237 | a token is found exactly when the header starts with `Bearer `, and the header is `Bearer ` followed by it |
| Backend.BearerRoundTrip | backend/main.py:232-237 | the token put in a bearer header is read back |
| Backend.SessionStore.Logout | backend/main.py:379-388 | the caller's session is deleted and nothing else; the reply is always the success message |
| Backend.SessionStore.GenerateTestSuggestions | backend/main.py:888-1152 | no bearer token gives 401 `Not authenticated` and a session without a GitHub token 401 `GitHub token not found`, with no change; otherwise the answer is the authenticated endpoint's result for the request and the GitHub replies; on success only the caller's session records its last request, and an error changes no session |
| Backend.SuggestForRepository | backend/main.py:899-1144 | the splitting, fetching, framework, cascade and parsing steps compute the authenticated endpoint's result |
| Backend.FetchedFiles | backend/main.py:903-908 | the fetch loop succeeds exactly when no reply raises, counting the base64 files; otherwise it fails with the error of the first raising reply |
| Backend.FetchFiles | backend/main.py:903-908 | the loop over the files' replies computes the fetch outcome |
| Backend.FirstRaise | backend/main.py:903-908 | the first raising reply decides the error, whatever the later replies are |
| Backend.SuggestionsFrom | backend/main.py:1048-1144 | a raising line gives 500 with the endpoint's error text; otherwise the parsed suggestions, or the fallback when none parse; never empty, all with the framework |
| Backend.AuthSuggestions | backend/main.py:899-1144 | a repository name that is not `owner/name` gives 500; a raising fetch's error passes through; then a framework error as is; all models failing 500 `All AI models failed...`; otherwise the suggestions of the cascade's answer; every framework is offered for the first file |
| Backend.DetectTestFramework | backend/main.py:249-252 | the detected framework is the language's default and is offered for the file |
| Backend.IsCodeFile | backend/main.py:254-256 | a code file has a known language, and a path mentioning `test` is never a code file |
| Backend.AuthSuggestionFramework | backend/main.py:919-929 | a requested framework is accepted exactly when it is offered for the first file (400 otherwise); without a request the default is used; an empty file list fails with 500 |
| Backend.AuthCodeFramework | backend/main.py:1177-1184 | the code endpoint always uses the first file's default framework |
| Backend.AuthFrameworksAgreeOnDefault | backend/main.py:919-929 | requesting the default, or nothing, gives the framework the code endpoint uses |
| Backend.DirectFramework | backend/main.py:538-544 | a requested framework wins; otherwise the first file's default; with no files there is none |
| Backend.FirstPieceIsPrefix | backend/main.py:1070 | the first piece of a split is a prefix of the line |
| Backend.AfterFirst | backend/main.py:1070 | the text after the first separator, empty when there is none |
| Backend.AfterFirstFacts | backend/main.py:654 | rejoining the pieces after the first gives exactly the text after the first separator |
| Backend.SecondPiece | backend/main.py:1073 | the piece after a label holds no further label and starts the text after the first one |
| Backend.WithoutSummaryLabel | backend/main.py:1072-1073 | a line without the label is kept; a line whose label differs in case from both spellings raises (`[1]` of a one-piece split); otherwise the label is cut |
| Backend.ClassifyDirect | backend/main.py:645-666 | a kept or raising line is a stripped numbered line containing `. ` that is not a sub-item; kept summaries are stripped |
| Backend.NumberedText | backend/main.py:1069-1079 | only a line starting with a digit yields a summary |
| Backend.ClassifyAuthenticated | backend/main.py:1055-1091 | a kept or raising line is longer than 10 characters, starts with a digit and is not a sub-item; kept summaries are stripped |
| Backend.Classifier | backend/main.py:641-666 | both endpoints' line classifiers keep only stripped summaries |
| Backend.NumberedLineText | backend/main.py:654 | for `n. text` the text after the first `. ` is the text |
| Backend.NumberedLineShape | backend/main.py:648 | a numbered line built from stripped text is stripped, starts with a digit and contains `. ` |
| Backend.NumberedLineKept | backend/main.py:645-666 | a long enough numbered line without sub-item words or label is kept as its text by the direct endpoint, and by the authenticated one when longer than 15 |
| Backend.Outcomes | backend/main.py:1055-1091 | one outcome per line, in order |
| Backend.Kept | backend/main.py:1055-1091 | the summaries are the kept lines; any raising line makes the whole parse fail |
| Backend.ParsedSuggestions | backend/main.py:641-666 | suggestions are numbered from 1, carry the framework and have stripped summaries; failure is a 500 |
| Backend.ParsedLines | backend/main.py:1048-1093 | the same for any classifier, failing with the given detail |
| Backend.ParseSuggestions | backend/main.py:641-666 | the parsing loop computes the parsed suggestions |
| Backend.ParseLines | backend/main.py:1055-1091 | the loop over lines computes the parsed suggestions |
| Backend.FallbackTemplates | backend/main.py:677-708 | each framework has five templates |
| Backend.FallbackSuggestions | backend/main.py:669-715 | five suggestions numbered 1 to 5 with the framework, each ending with ` in ` and the first file (or `code`) |
| Backend.WithFallback | backend/main.py:669-717 | parsed suggestions are kept when there are any, otherwise the fallback; never empty; frameworks are preserved |
| Backend.GenerateSuggestionsDirect | backend/main.py:522-727 | a bad URL's 400 becomes a 500 carrying its text; with a good URL a failure of the direct endpoint's steps is its 500, and a success answers `owner/repo`, the framework used, the suggestions and the files asked for; every failure is a 500 |
| Backend.AiErrorText | backend/main.py:875-886 | a non-200 reply's HTTPException reads as its status and detail; any other exception reads as its own text |
| Backend.SuggestDirect | backend/main.py:528-717 | the fetch, framework, AI and parsing steps compute the direct endpoint's result |
| Backend.DirectSuggestions | backend/main.py:527-727 | a failed fetch, a missing first file (`list index out of range`), a failed AI call (an HTTP error as `status: detail`, a timeout or missing key as its own text) and a raising line each give 500 `Failed to generate suggestions: ` and the error text; a success needs all steps to pass; otherwise the suggestions of the AI answer with the chosen framework |
| Backend.Cascade | backend/main.py:1031-1042 | the answer kept is the previous one or some model's reply; if every model fails, nothing changes |
| Backend.CascadeResult | backend/main.py:1023-1045 | success is a non-empty reply from some model; failure is 500 `All AI models failed...` |
| Backend.RunModelCascade | backend/main.py:1023-1045 | the loop over the models computes the cascade result |
| Backend.CascadeStopsAtFirstGood | backend/main.py:1035-1038 | the first reply longer than 50 characters is the answer |
| Backend.LatestReplyFront | backend/main.py:1031-1042 | peeling off the first model's reply gives the same latest reply |
| Backend.CascadeKeepsLatest | backend/main.py:1031-1042 | with no reply over 50 characters, the last successful reply is the answer |
| Backend.DirectTestExtension | backend/main.py:826-835 | any framework outside the table gets `py`; jest and playwright get `js` exactly for JavaScript and `ts` otherwise |
| Backend.DirectExtensionFits | backend/main.py:826-835 | each framework of the table gets the extension of a supported language that lists it |
| Backend.DirectSuggestedFilename | backend/main.py:826-844 | selenium, cypress and playwright get their own name forms; the rest are `test_<base>.<ext>`; no name contains a slash |
| Backend.AuthPrimaryLanguage | backend/main.py:1177-1182 | with file contents, the language is the mapped lower-case extension of the first file, else the extension itself |
| Backend.AuthTestExtension | backend/main.py:1260-1266 | any framework outside the shorter table gets `py`; jest gets `js` exactly for JavaScript and `ts` otherwise; the other listed frameworks get the direct endpoint's extension |
| Backend.AuthExtensionFits | backend/main.py:1260-1266 | each framework of the table gets the extension of a supported language that lists it |
| Backend.AuthSuggestedFilename | backend/main.py:1258-1267 | `test_<base>.` followed by the framework's extension: the direct endpoint's for pytest, junit, go testing and rspec; `js` for jest on JavaScript and `ts` otherwise; `py` for every other framework; never a slash |
| Backend.PytestFilenamesAgree | backend/main.py:826-844 | for pytest both endpoints and the utility agree on the name |
| Backend.JestJavaScriptFilenamesAgree | backend/main.py:1258-1267 | for a JavaScript file under jest both endpoints suggest `test_<base>.js` |
| Backend.DirectJestName | backend/main.py:830 | the direct endpoint names a JavaScript jest test `test_<base>.js` |
| Backend.AuthJestName | backend/main.py:1261 | the authenticated endpoint names a JavaScript jest test `test_<base>.js` |
| Backend.JavaScriptBothWays | backend/main.py:1177-1182 | a `.js` file is JavaScript for both endpoints |
| Backend.JavaScriptSuffix | backend/main.py:1180 | the lower-cased last dot-piece of a `.js` file is `js` |
| Config.Extension | backend/config.py:192 | empty without a dot; otherwise it starts at the path's last dot and is that dot followed by the lower-cased rest |
| Config.GetAiModelConfig | backend/config.py:184-188 | a known key gives its model, anything else the default |
| Config.DefaultsAreAvailable | backend/config.py:39-110 | every language's default framework is among its frameworks |
| Config.LanguageEntryOf | backend/config.py:190-198 | the entry of a listed extension, or the unknown entry |
| Config.GetLanguageConfig | backend/config.py:190-198 | a listed extension gives its table entry's language, default framework and framework list; any other path gives `unknown`, `generic` and `["generic"]` |
| Config.GetAvailableFrameworks | backend/config.py:209-213 | a listed extension gives its table entry's framework list, any other path `["generic"]`; the list is the one the language lookup reports and holds its default |
| Config.GetFrameworkConfig | backend/config.py:200-207 | a listed framework's configuration, otherwise the generic one |
| Config.IsSupportedFile | backend/config.py:215-218 | supported exactly when the language is known |
| Config.ShouldExcludeFile | backend/config.py:220-223 | excluded exactly when one of the listed patterns occurs in the lower-cased path; any path naming `test` or `node_modules`, in any case, is excluded |
| Config.PythonUses | backend/config.py:40-44 | Python files are supported and list pytest and selenium |
| Config.JavaScriptUses | backend/config.py:45-54 | JavaScript files are supported and list jest, playwright and cypress |
| Config.TypeScriptUses | backend/config.py:55-64 | TypeScript files are supported and list jest and playwright |
| Config.JavaGoRubyUse | backend/config.py:65-79 | Java, Go and Ruby files are supported and list junit, `testing` and rspec |
| Config.ExclusionIgnoresCase | backend/config.py:220-223 | exclusion does not depend on case |
| Config.TestPathsExcluded | backend/config.py:164-168 | any path mentioning `test` is excluded |
| Dashboard.JoinSnoc | frontend/src/pages/Dashboard.jsx:87 | joining one more piece appends the separator and the piece |
| Dashboard.SplitAtChar | frontend/src/pages/Dashboard.jsx:86 | a path with a slash splits into at least two pieces |
| Dashboard.DirectoryOf | frontend/src/pages/Dashboard.jsx:86-87 | a path without a slash is in `root`; otherwise the directory, a slash and the file name rebuild the path |
| Dashboard.SplitRootPath | frontend/src/pages/Dashboard.jsx:86 | `root/<name>` splits into `root` and the name |
| Dashboard.RootDirectoryShared | frontend/src/pages/Dashboard.jsx:87 | a top-level file and a file in a directory called `root` share a group |
| Dashboard.Group | frontend/src/pages/Dashboard.jsx:88-89 | a group holds exactly the files with that directory |
| Dashboard.GroupSnoc | frontend/src/pages/Dashboard.jsx:85-90 | each file is pushed onto its own group, in order |
| Dashboard.GroupBy | frontend/src/pages/Dashboard.jsx:84-90 | the loop creates a non-empty group for each directory that occurs, and for no other |
| Dashboard.GroupFiles | frontend/src/pages/Dashboard.jsx:84-90 | no groups exactly when some file's directory is an inherited object property (the push throws); otherwise a non-empty group for each directory that occurs, and for no other, holding that directory's files in order |
| Dashboard.GroupsPartition | frontend/src/pages/Dashboard.jsx:84-90 | every file is in exactly one group, its directory's |
| Dashboard.CompareGroups | frontend/src/pages/Dashboard.jsx:93 | `root` sorts before every other group; the others follow the locale comparison |
| Dashboard.RootSortsFirst | frontend/src/pages/Dashboard.jsx:93 | `root` comes first both ways round |
| Dashboard.OfferedFiles | frontend/src/pages/Dashboard.jsx:409 | the first 20 files, or all when fewer |
| Dashboard.DashboardState.constructor | frontend/src/pages/Dashboard.jsx:34-38 | nothing expanded, fetched, selected or loading, and no error |
| Dashboard.DashboardState.SelectionOf | frontend/src/pages/Dashboard.jsx:166 | a repository without a selection has an empty one |
| Dashboard.DashboardState.ToggleFileSelection | frontend/src/pages/Dashboard.jsx:164-175 | the file leaves the repository's selection if present, else is appended; other repositories and the rest of the state are unchanged |
| Dashboard.DashboardState.FetchRepoFiles | frontend/src/pages/Dashboard.jsx:123-148 | files already fetched are not fetched again; a success stores the files and an empty selection; a failure sets the error; loading ends |
| Dashboard.DashboardState.ToggleRepoExpansion | frontend/src/pages/Dashboard.jsx:151-161 | an open repository collapses and nothing else changes; another one opens: cached files leave the state alone, otherwise the fetch's outcome stores the files with an empty selection or sets its error, and loading ends |
| Dashboard.DashboardState.GenerateTestSuggestions | frontend/src/pages/Dashboard.jsx:178-207 | an empty selection sets the error and sends nothing; otherwise the selection is sent and the answer stored, or its detail shown |
| FileSelector.EmptyTermMatches | frontend/src/components/FileSelector.jsx:7-9 | the empty search term matches every file |
| FileSelector.FilteredFiles | frontend/src/components/FileSelector.jsx:7-9 | exactly the files whose path contains the term, ignoring case; all of them for the empty term |
| FileSelector.FilteredFilesAppend | frontend/src/components/FileSelector.jsx:7-9 | filtering a concatenation filters each part in turn, so order and repeats are kept |
| FileSelector.FilteredFilesSingle | frontend/src/components/FileSelector.jsx:7-9 | a single file is kept exactly when it matches |
| FileSelector.HandleFileToggle | frontend/src/components/FileSelector.jsx:11-21 | a selected file is filtered out of the selection (every copy, the rest in order); another is appended only while fewer than five are selected, otherwise the selection is unchanged; selections stay duplicate-free and at most five |
| FileSelector.IsDisabled | frontend/src/components/FileSelector.jsx:69 | a selected row is never disabled; on a disabled row the toggle changes nothing; on any other unselected row the toggle appends it |
| FileSelector.Click | frontend/src/components/FileSelector.jsx:69 | a click on a disabled file changes nothing |
| FileSelector.ClicksKeepBounds | frontend/src/components/FileSelector.jsx:11-21 | any sequence of clicks keeps the selection duplicate-free and at most five |
| FileSelector.Paths | frontend/src/components/FileSelector.jsx:28 | the paths of the files, in order |
| FileSelector.HandleSelectAll | frontend/src/components/FileSelector.jsx:23-31 | when the counts match the selection is cleared, otherwise the first five filtered paths are selected |
| GithubDirect.OwnerRepo | backend/github_direct.py:34-35 | the match exists exactly when some slash with none before it is neither first nor last and is not followed by a slash; the owner is the text before it, the name the run after it up to the next slash or the end |
| GithubDirect.TwoRuns | backend/github_direct.py:34-35 | the two runs split by the first slash are non-empty exactly when a slash with none before it is neither first nor last and has no slash after it |
| GithubDirect.BeforeFirstAt | backend/github_direct.py:34-35 | the owner run ends at the first slash |
| GithubDirect.SecondRun | backend/github_direct.py:34-35 | owner, slash and name start the text, and the name ends at the end or at a slash |
| GithubDirect.WholeOwnerRepo | backend/github_direct.py:36 | the short form is exactly `owner/name` |
| GithubDirect.CleanRepoUrl | backend/github_direct.py:26-30 | the URL is stripped and a trailing `.git` is removed |
| GithubDirect.ParseGithubUrl | backend/github_direct.py:15-48 | owner and name have no slashes and are stripped; failure is a 400 |
| GithubDirect.MatchRepoUrl | backend/github_direct.py:33-48 | on a cleaned URL: the first form that matches, in the order `https://github.com/`, `http://github.com/`, `github.com/`, whole `o/r`, gives its owner and name stripped; it fails with the 400 message exactly when none matches |
| GithubDirect.PrefixesExclusive | backend/github_direct.py:34-35 | a URL starts with at most one of the three host prefixes |
| GithubDirect.StripKeepsOut | backend/github_direct.py:26 | stripping introduces no character |
| GithubDirect.ShortFormShape | backend/github_direct.py:36 | `owner/name` has its only slash right after the owner, so the short pattern splits it there |
| GithubDirect.ShortFormClean | backend/github_direct.py:26-30 | cleaning leaves a clean short form alone |
| GithubDirect.ShortFormStripped | backend/github_direct.py:26 | a short form of stripped parts is stripped |
| GithubDirect.ShortFormNoGit | backend/github_direct.py:29-30 | a short form whose name has no `.git` does not end with it |
| GithubDirect.ShortFormNotLong | backend/github_direct.py:34-35 | a short form matches neither the full-URL patterns nor the host pattern |
| GithubDirect.ShortFormNotHttps | backend/github_direct.py:34 | a short form has no `https://github.com/` prefix |
| GithubDirect.ShortFormNotHttp | backend/github_direct.py:34 | a short form has no `http://github.com/` prefix |
| GithubDirect.ShortFormNotHost | backend/github_direct.py:35 | a short form does not match the `github.com/` pattern |
| GithubDirect.ParseShortForm | backend/github_direct.py:15-48 | `owner/name` parses back to owner and name |
| GithubDirect.ParseHostForm | backend/github_direct.py:15-48 | `https://github.com/owner/name`, `http://github.com/owner/name` and `github.com/owner/name` parse back to owner and name |
| GithubDirect.MatchHostForm | backend/github_direct.py:33-42 | each host form, once clean, matches with the owner and name |
| GithubDirect.HostFormClean | backend/github_direct.py:26-30 | a host form without a trailing `.git` is already clean |
| GithubDirect.HostPartNoGit | backend/github_direct.py:29-30 | text after a slash ends in `.git` only when it does itself |
| GithubDirect.OwnerRepoShortForm | backend/github_direct.py:34-35 | `owner/name` splits into owner and name |
| GithubDirect.MatchShortForm | backend/github_direct.py:33-43 | the patterns give owner and name for the short form |
| GithubDirect.WholeShortForm | backend/github_direct.py:36 | the short pattern takes the whole `owner/name` |
| GithubDirect.GitSuffixIgnored | backend/github_direct.py:26-30 | a trailing `.git` does not change the parse |
| GithubDirect.CleanDropsGit | backend/github_direct.py:29-30 | cleaning removes exactly the trailing `.git` |
| GithubDirect.DetectLanguageFromExtension | backend/github_direct.py:167-188 | `unknown` exactly for unlisted extensions, and for names without a dot |
| GithubDirect.DetectFrameworkFromLanguage | backend/github_direct.py:190-206 | an unlisted language gets `generic` |
| GithubDirect.LookupsAgreeWithConfig | backend/github_direct.py:167-206 | both lookups agree with the language table of the configuration |
| GithubDirect.TablesAgree | backend/github_direct.py:167-206 | the extension and framework tables list the same extensions, languages and defaults as the configuration |
| GithubDirect.EntryAgrees | backend/github_direct.py:167-206 | each listed extension agrees with its configuration entry |
| GithubDirect.CodeFilesMembers | backend/github_direct.py:104-129 | a file is listed exactly when it is a blob with a code extension and no excluded word, in listing order |
| GithubDirect.ExcludedWordsDropped | backend/github_direct.py:106 | no listed path mentions `test`, `spec` or `bin`, ignoring case |
| GithubDirect.FetchGithubRepoFiles | backend/github_direct.py:76-133 | 404, 403 and other statuses give their messages; 200 gives the code files |
| GithubDirect.KeySetsComplete | backend/github_direct.py:235-254 | every language and indicator has its counter and list |
| GithubDirect.CollectMembers | backend/github_direct.py:279-302 | a path is in an indicator list exactly when it belongs there |
| GithubDirect.IndicatorListsDisjoint | backend/github_direct.py:279-302 | no path is in two indicator lists |
| GithubDirect.StatsOf | backend/github_direct.py:260-276 | one counter per language, counting its paths |
| GithubDirect.IndicatorsOf | backend/github_direct.py:279-302 | one list per indicator, holding its paths |
| GithubDirect.ScanProject | backend/github_direct.py:256-302 | the scan loop computes the counters and lists |
| GithubDirect.ScanProjectPaths | backend/github_direct.py:235-302 | the scan over the project's paths gives the statistics and indicators |
| GithubDirect.DecideFramework | backend/github_direct.py:316-367 | cypress exactly when indicated, then playwright; selenium only for Python; the Python and JavaScript/TypeScript defaults |
| GithubDirect.BlobPaths | backend/github_direct.py:230 | exactly the paths of blob entries |
| GithubDirect.DetectFrameworkFromProjectStructure | backend/github_direct.py:208-373 | the detection computes the structural framework, never empty |
| GithubDirect.IndicatedIffListed | backend/github_direct.py:279-302 | a list is non-empty exactly when some path indicates it |
| GithubDirect.CypressWins | backend/github_direct.py:316-317 | cypress is chosen exactly when a path indicates it |
| GithubDirect.PlaywrightNext | backend/github_direct.py:318-319 | without cypress, a playwright path selects playwright |
| GithubDirect.SeleniumNeedsPython | backend/github_direct.py:320-321 | selenium is chosen only for a Python file or a project with Python files |
| GithubDirect.NoIndicatorsMeansEmptyLists | backend/github_direct.py:279-302 | without indicating paths all lists are empty |
| GithubDirect.PythonDefault | backend/github_direct.py:324-332 | a Python file in a project without indicators gets pytest |
| GithubDirect.ScriptDefault | backend/github_direct.py:334-346 | a JavaScript or TypeScript file with no more Python than script files gets jest |
| Helpers.FileExtension | frontend/src/utils/helpers.js:30 | the lower-cased text after the last dot, the whole name lower-cased when there is none; never a dot |
| Helpers.ExtensionListsDisjoint | frontend/src/config/constants.js:13-16 | the four extension lists share no extension |
| Helpers.GetFileIcon | frontend/src/utils/helpers.js:29-43 | each icon exactly for its list, `file` for the rest |
| Helpers.IsTestableFile | frontend/src/utils/helpers.js:93-96 | testable exactly when the icon is `code` |
| Helpers.FormatFileSize | frontend/src/utils/helpers.js:17-22 | a missing or zero size is `N/A`, a small one the number with ` B` |
| Helpers.TruncateText | frontend/src/utils/helpers.js:51-54 | a short or empty text is kept; a longer one is cut to the limit and `...` appended |
| Helpers.TruncateIdempotent | frontend/src/utils/helpers.js:51-54 | truncating twice is the same as once |
| Outcome.FailureMessage | frontend/src/pages/TestGenerator.jsx:173-176 | the server's detail when present, otherwise the page's fallback text |
| RepoAnalyzer.FormatRepoUrl | frontend/src/pages/RepoAnalyzer.jsx:50-56 | the shown URL is stripped and no longer than the input |
| RepoAnalyzer.FormatRepoUrlRoundTrip | frontend/src/pages/RepoAnalyzer.jsx:50-56 | the GitHub prefix and `.git` are removed, giving back `owner/name` |
| RepoAnalyzer.FormatHttpsGit | frontend/src/pages/RepoAnalyzer.jsx:50-56 | `https://github.com/<p>.git` shows as `p` |
| RepoAnalyzer.FormatHttpGit | frontend/src/pages/RepoAnalyzer.jsx:50-56 | `http://github.com/<p>.git` shows as `p` |
| RepoAnalyzer.FormatHttpsBare | frontend/src/pages/RepoAnalyzer.jsx:50-56 | `https://github.com/<p>` shows as `p` |
| RepoAnalyzer.GitBeforeSpaceKept | frontend/src/pages/RepoAnalyzer.jsx:50-56 | `.git` is removed only at the very end, before trimming |
| RepoAnalyzer.AnalyzerPage.constructor | frontend/src/pages/RepoAnalyzer.jsx:8-11 | empty input, no result, no error, not loading |
| RepoAnalyzer.AnalyzerPage.SetRepoUrl | frontend/src/pages/RepoAnalyzer.jsx:83 | the typed text becomes the input; nothing else changes |
| RepoAnalyzer.AnalyzerPage.HandleAnalyze | frontend/src/pages/RepoAnalyzer.jsx:14-37 | a blank input sets the error and sends nothing; otherwise the trimmed URL is sent and the result or error stored; loading ends |
| RepoAnalyzer.AnalyzerPage.HandleGenerateTests | frontend/src/pages/RepoAnalyzer.jsx:39-48 | with a result, the snapshot is stored and the page moves to the generator; otherwise nothing happens |
| RepositoryDetails.ChildIndex | frontend/src/pages/RepositoryDetails.jsx:162 | the first child with the name, or none |
| RepositoryDetails.ChildIndexSameNames | frontend/src/pages/RepositoryDetails.jsx:269-287 | lookup depends only on child names |
| RepositoryDetails.ChildIndexUpdate | frontend/src/pages/RepositoryDetails.jsx:162-170 | replacing a child by one of the same name does not change lookups |
| RepositoryDetails.Insert | frontend/src/pages/RepositoryDetails.jsx:145-172 | inserting a file adds one file and keeps the node's own fields |
| RepositoryDetails.BuildFileTree | frontend/src/pages/RepositoryDetails.jsx:141-176 | the leaves hold exactly the listed files, each as often as listed; each file's leaf sits in the directory its path names; every leaf comes from a listed file whose path is the leaf's place; directory names are unique among siblings and each path is its joined names; directories of the first two levels start expanded, deeper ones collapsed |
| RepositoryDetails.BuildStep | frontend/src/pages/RepositoryDetails.jsx:144-172 | inserting the next file keeps the count, the leaf files, placement, leaf origins, shape and expansion of the files before it |
| RepositoryDetails.InsertLeafFiles | frontend/src/pages/RepositoryDetails.jsx:145-172 | inserting a file adds exactly that file to the leaves below the node |
| RepositoryDetails.InsertAddsNextFile | frontend/src/pages/RepositoryDetails.jsx:144-172 | after the next insertion the leaves hold the files listed so far |
| RepositoryDetails.SumLeafFilesUpdate | frontend/src/pages/RepositoryDetails.jsx:162-170 | replacing a directory entry replaces its files in the total |
| RepositoryDetails.InsertFromRoot | frontend/src/pages/RepositoryDetails.jsx:144-172 | a listed file inserted from the root is placed, and every leaf still comes from a listed file |
| RepositoryDetails.InsertKeepsPlaced | frontend/src/pages/RepositoryDetails.jsx:144-172 | a placed file stays placed when another is inserted |
| RepositoryDetails.InsertPlaces | frontend/src/pages/RepositoryDetails.jsx:149-172 | the new leaf lands in the directory the remaining segments lead to |
| RepositoryDetails.InsertKeepsLeaf | frontend/src/pages/RepositoryDetails.jsx:149-172 | an existing leaf stays where it was |
| RepositoryDetails.InsertLeavesFrom | frontend/src/pages/RepositoryDetails.jsx:149-172 | every leaf still comes from a listed file at its path |
| RepositoryDetails.ChildIndexAppend | frontend/src/pages/RepositoryDetails.jsx:162-170 | appending a child keeps earlier lookups, and a name not found before is found at the end |
| RepositoryDetails.InsertShaped | frontend/src/pages/RepositoryDetails.jsx:162-170 | insertion keeps names unique and paths consistent |
| RepositoryDetails.InsertDefaultExpansion | frontend/src/pages/RepositoryDetails.jsx:167 | a new directory is expanded exactly when it is within the first two levels |
| RepositoryDetails.TopLevelFile | frontend/src/pages/RepositoryDetails.jsx:152-159 | a file without a slash is added to the root's files |
| RepositoryDetails.SumCountsUpdate | frontend/src/pages/RepositoryDetails.jsx:289-303 | replacing a child changes the total by the difference |
| RepositoryDetails.GetDirectoryFileCount | frontend/src/pages/RepositoryDetails.jsx:289-303 | the count is the number of files below the directory |
| RepositoryDetails.Flip | frontend/src/pages/RepositoryDetails.jsx:269-287 | flipping keeps names, kinds and file counts |
| RepositoryDetails.ToggleDirectory | frontend/src/pages/RepositoryDetails.jsx:269-287 | toggling keeps the tree's shape and file count |
| RepositoryDetails.FlipSameShape | frontend/src/pages/RepositoryDetails.jsx:269-287 | a flip changes no name, path or file |
| RepositoryDetails.FlipTwice | frontend/src/pages/RepositoryDetails.jsx:269-287 | toggling twice restores the tree |
| RepositoryDetails.FlipIsLocal | frontend/src/pages/RepositoryDetails.jsx:269-287 | only the addressed directory's flag changes |
| RepositoryDetails.FilesIn | frontend/src/pages/RepositoryDetails.jsx:324 | exactly the fetched files whose path is selected |
| RepositoryDetails.FilesInAppend | frontend/src/pages/RepositoryDetails.jsx:324 | filtering a concatenation filters each part in turn, so order and repeats are kept |
| RepositoryDetails.FilesInSingle | frontend/src/pages/RepositoryDetails.jsx:324 | a single file is kept exactly when its path is selected |
| RepositoryDetails.HandleGenerateTests | frontend/src/pages/RepositoryDetails.jsx:315-337 | an empty selection alerts and stores nothing; otherwise the snapshot holds only selected files, the count and the selection |
| RepositoryDetails.GetFileLanguage | frontend/src/pages/RepositoryDetails.jsx:339-375 | a listed extension gives its language; `text` exactly for an unlisted extension that is not an inherited object property; such a property gives no language string |
| RepositoryDetails.NoLanguageIsText | frontend/src/pages/RepositoryDetails.jsx:339-375 | no listed extension maps to `text`, and none is an inherited object property |
| RepositoryDetails.TestableFilesHaveLanguage | frontend/src/pages/RepositoryDetails.jsx:339-375 | every file with the code icon has a highlighting language, and it is not `text` |
| Selection.Without | frontend/src/pages/RepositoryDetails.jsx:305-313 | removes every copy of the path and keeps the count of every other |
| Selection.WithoutAppend | frontend/src/pages/RepositoryDetails.jsx:308 | the filter distributes over concatenation, so it keeps order and repeats |
| Selection.WithoutSingle | frontend/src/pages/RepositoryDetails.jsx:308 | a single entry is dropped exactly when it is the path |
| Selection.WithoutOnce | frontend/src/pages/RepositoryDetails.jsx:305-313 | in a duplicate-free selection one entry goes |
| Selection.Toggle | frontend/src/pages/RepositoryDetails.jsx:305-313 | a present path is filtered out (every copy, the rest in order), an absent one appended; no duplicates appear |
| Selection.ToggleTwice | frontend/src/pages/RepositoryDetails.jsx:305-313 | selecting and then deselecting a path restores the selection |
| TestGenerator.DotsToHyphens | frontend/src/pages/TestGenerator.jsx:147 | every dot becomes a hyphen and nothing else changes |
| TestGenerator.DecimalHasNoDot | frontend/src/pages/TestGenerator.jsx:147 | a timestamp has no dot |
| TestGenerator.BranchName | frontend/src/pages/TestGenerator.jsx:147 | `testgen/`, the file name without dots, a hyphen and the timestamp |
| TestGenerator.BranchNamesSeparateFiles | frontend/src/pages/TestGenerator.jsx:147 | files differing in a character other than a dot get different branches |
| TestGenerator.CommitMessage | frontend/src/pages/TestGenerator.jsx:148 | starts with `Add <file>` and a blank line, ends with `Generated test for: <summary>`, the first line is `Add <file>`, and nothing else is added (26 characters besides the two) |
| TestGenerator.FirstLine | frontend/src/pages/TestGenerator.jsx:148 | the first line is the text before the newline |
| TestGenerator.CommitMessageAgrees | backend/utils.py:139-146 | the page's commit message equals the backend's for summaries of up to 50 characters |
| TestGenerator.GeneratorPage.constructor | frontend/src/pages/TestGenerator.jsx:29-46 | empty state; held code always has its suggestion and repository |
| TestGenerator.GeneratorPage.Mount | frontend/src/pages/TestGenerator.jsx:49-57 | a stored snapshot is loaded; without one the page redirects to the analyzer; no other field changes |
| TestGenerator.GeneratorPage.UpdateFrameworks | frontend/src/pages/TestGenerator.jsx:60-77 | with files selected, the first one is looked up; its answer gives the offered frameworks and the default, a failed lookup gives the fallback list with `selenium` chosen; nothing else changes |
| TestGenerator.GeneratorPage.ChangeSelection | frontend/src/pages/TestGenerator.jsx:60-77 | the selection is replaced; with files selected, the first one's answer gives the offered frameworks and the default, a failed lookup the fallback list with `selenium`; no other field changes |
| TestGenerator.GeneratorPage.HandleGenerateSuggestions | frontend/src/pages/TestGenerator.jsx:79-108 | no selection sets the error; otherwise suggestions, choice and code are cleared, the request is sent and the answer stored with a count message, or its detail shown; held code keeps its suggestion and repository; no other field changes |
| TestGenerator.GeneratorPage.HandleGenerateCode | frontend/src/pages/TestGenerator.jsx:110-135 | the suggestion is selected; for a known repository the request carries its URL, the suggestion's id and summary, the selected files and the framework; code is held exactly when it was generated; no other field changes |
| TestGenerator.GeneratorPage.HandleCreatePR | frontend/src/pages/TestGenerator.jsx:137-180 | without code or login the error is set; otherwise the branch and commit message above are sent and the outcome shown; no other field changes |
| Utils.EstimateTokenCount | backend/utils.py:19-21 | one token per four characters, rounded down |
| Utils.TruncDiv | backend/utils.py:29-30 | integer conversion truncates toward zero |
| Utils.PySliceTo | backend/utils.py:32 | a prefix slice with Python's negative-index rule |
| Utils.PyLast | backend/utils.py:33 | the last characters, all when fewer |
| Utils.BudgetSplit | backend/utils.py:28-30 | head and tail share out at most the budget |
| Utils.TruncateContentIfNeeded | backend/utils.py:23-37 | content within budget is kept; otherwise head, marker and tail |
| Utils.DropPrefix | backend/utils.py:57-59 | when the answer starts with the prefix, ignoring case, the rest after it is stripped and returned; otherwise the answer is unchanged |
| Utils.DropSuffix | backend/utils.py:61-63 | when the answer ends with the suffix, ignoring case, the text before it is stripped and returned; otherwise the answer is unchanged |
| Utils.PrefixPasses | backend/utils.py:57-59 | the prefix passes never lengthen and keep the answer stripped |
| Utils.PrefixPassesAppend | backend/utils.py:57-59 | trying two prefix lists in turn is trying their concatenation |
| Utils.PrefixPassesUpTo | backend/utils.py:57-59 | when entry `k` is the first to match, the passes up to it cut that entry off and strip |
| Utils.PrefixPassesAt | backend/utils.py:57-59 | when entry `k` is the first to match, the passes cut it off and go on with the later entries |
| Utils.PrefixStage | backend/utils.py:57-59 | when entry `k` is the first to match and no later one matches what is left, the passes return the stripped rest |
| Utils.SuffixPasses | backend/utils.py:61-63 | the suffix passes never lengthen and keep the answer stripped |
| Utils.SuffixPassesAppend | backend/utils.py:61-63 | trying two suffix lists in turn is trying their concatenation |
| Utils.SuffixPassesUpTo | backend/utils.py:61-63 | when entry `k` is the first to match, the passes up to it cut that entry off and strip |
| Utils.SuffixPassesAt | backend/utils.py:61-63 | when entry `k` is the first to match, the passes cut it off and go on with the later entries |
| Utils.SuffixStage | backend/utils.py:61-63 | when entry `k` is the first to match and no later one matches what is left, the passes return the stripped text before it |
| Utils.CleanedResponse | backend/utils.py:39-65 | the cleaned answer is stripped and no longer |
| Utils.ListedPrefixRemoved | backend/utils.py:39-65 | a listed prefix, whitespace and a clean answer are cleaned to that answer |
| Utils.ListedSuffixRemoved | backend/utils.py:39-65 | a clean answer, whitespace and a listed suffix are cleaned to that answer, when no listed prefix starts the text |
| Utils.PrefixRemovedFrom | backend/utils.py:39-65 | for any lists: prefix entry `k`, whitespace and a body matching no other entry are cleaned to the body |
| Utils.SuffixRemovedFrom | backend/utils.py:39-65 | for any lists: a body, whitespace and suffix entry `k`, with no prefix matching, are cleaned to the body |
| Utils.EarlierPrefixesMiss | backend/utils.py:42-47 | a text starting with a listed prefix starts with no earlier one, in any case |
| Utils.EarlierSuffixesMiss | backend/utils.py:49-53 | a text ending with a listed suffix ends with no earlier one, in any case |
| Utils.StripLeadingGap | backend/utils.py:59 | whitespace before a stripped text is stripped away |
| Utils.StripTrailingGap | backend/utils.py:63 | whitespace after a stripped text is stripped away |
| Utils.DropPrefixes | backend/utils.py:57-59 | the loop computes the prefix passes |
| Utils.DropSuffixes | backend/utils.py:61-63 | the loop computes the suffix passes |
| Utils.CleanAiResponse | backend/utils.py:39-65 | the cleaning loops give the cleaned answer |
| Utils.PrefixPassesKeep | backend/utils.py:57-59 | no matching prefix leaves the answer alone |
| Utils.SuffixPassesKeep | backend/utils.py:61-63 | no matching suffix leaves the answer alone |
| Utils.CleanKeepsCleanAnswer | backend/utils.py:39-65 | an already clean answer is unchanged |
| Utils.NumberMarker | backend/utils.py:81 | a number marker starts with a digit |
| Utils.BulletMarker | backend/utils.py:81 | a bullet marker starts with `-` or a bullet |
| Utils.WithoutMarker | backend/utils.py:87 | the text after the marker; a line without one is unchanged |
| Utils.NumberedLineMarker | backend/utils.py:81-87 | for `n. text` the marker is removed, leaving the text |
| Utils.ParseLines | backend/utils.py:75-97 | at most one suggestion per line, all stripped |
| Utils.NumberedLineParses | backend/utils.py:75-97 | a single numbered line is one suggestion |
| Utils.ContinuationLineJoins | backend/utils.py:88-93 | a following unmarked line joins the suggestion with a space |
| Utils.LongOnes | backend/utils.py:100 | exactly the suggestions longer than 10 characters |
| Utils.LongOnesAppend | backend/utils.py:100 | the filter distributes over concatenation, so it keeps order and repeats |
| Utils.LongOnesSingle | backend/utils.py:100 | a single suggestion is kept exactly when it is longer than 10 characters |
| Utils.SuggestionsOf | backend/utils.py:67-100 | suggestions are longer than 10, stripped, at most one per line |
| Utils.ParseTestSuggestions | backend/utils.py:67-100 | the loop computes the suggestions |
| Utils.BaseName | backend/utils.py:104 | the file name up to its first dot: a prefix of the last path segment, without slashes or dots, ending at the segment's end or at a dot |
| Utils.GenerateTestFilename | backend/utils.py:102-117 | the framework's pattern around the base name, `test_<base>.py` otherwise; no slash |
| Utils.ReplaceInvalid | backend/utils.py:122 | invalid characters become hyphens; valid ones stay |
| Utils.CollapseHyphens | backend/utils.py:125 | no two hyphens in a row, and no new characters |
| Utils.ValidateBranchName | backend/utils.py:119-137 | only valid characters, no doubled hyphen, no leading slash |
| Utils.NoUsableCharacterGivesDefault | backend/utils.py:119-137 | a name of nothing but hyphens and invalid characters becomes `test-branch` |
| Utils.ValidNameKept | backend/utils.py:119-137 | a name of valid characters without doubled hyphens, a leading hyphen or slash, or a trailing hyphen is kept |
| Utils.AllSlashesGiveEmpty | backend/utils.py:119-137 | a name of only slashes becomes empty |
| Utils.FormatCommitMessage | backend/utils.py:139-146 | `Add <file>`, a blank line and the summary, cut to its first 50 characters plus `...` when longer |
| Utils.FencedBody | backend/utils.py:151-156 | the block body holds no fence |
| Utils.BodyOf | backend/utils.py:151-156 | the body up to the closing fence holds no fence |
| Utils.ExtractCodeFromAiResponse | backend/utils.py:148-159 | the code is stripped; without a fence the whole answer |
| Utils.ExtractFencedBlock | backend/utils.py:148-159 | a fenced block gives back its code |
| Utils.FencedBlockBody | backend/utils.py:151-156 | the body of a fenced block is its code |
| Utils.SanitizeFilePath | backend/utils.py:213-225 | the path has no `..`, does not start with a slash and is not empty; otherwise 400 |
| Utils.RemovingDotsLeavesNone | backend/utils.py:216 | after the removal no `..` remains |
| Utils.SlashCollapseKeepsNoDots | backend/utils.py:216 | collapsing slashes creates no `..` |
| Utils.SanitizeKeepsCleanPath | backend/utils.py:213-225 | a clean path is kept |

## Left out

- Network, GitHub and AI calls, the clock (`time.time()`, `Date.now()`), `localeCompare` and browser navigation are parameters of the members that use them.
- Backend.ExpiredTokens, Backend.Survivors and Backend.SessionStore.CleanupSessions: times are whole seconds, where the server stores the float `time.time()`.
- Backend.SessionStore.GenerateTestSuggestions, Backend.SuggestForRepository and Backend.AuthSuggestions: each file's GitHub reply is a value: base64 content, another object, a reply whose base64 or UTF-8 decoding raises, or an HTTP error. File contents are not modelled; the response is the bare list of suggestions. The primary language is computed but does not influence the framework, as written.
- Backend.GenerateSuggestionsDirect and Backend.DirectSuggestions: a failed `fetch_file_content` is given as its error text, and the AI call as its content, its HTTP error or the text of whatever else it raised.
- Config.GetAiModelConfig: temperatures are kept in tenths (`7` for `0.7`), as the model has no floating point.
- Prompt building, base64 decoding of file contents, pull-request creation on the backend and logging are not part of this model.
- The OAuth callback, repository listing, file content, framework listing, analysis and debug endpoints of `backend/main.py` are not part of this model. Neither are `fetch_file_content` and `get_github_token` of `backend/github_direct.py`.
- Frontend formatting helpers are not modelled: `getLanguageColor`, `formatDate`, `debounce`, `generateId`, copy and download.
- Helpers.FormatFileSize: the KB and MB labels are floating point, so sizes of 1024 bytes or more give `None`.
- Helpers.TruncateText: an empty text is kept whatever the limit; the converse does not hold.
- Utils.BudgetSplit: the `0.8`/`0.2` multipliers are taken as exact fractions, rounded toward zero by `int()`.
- Utils.ExtractCodeFromAiResponse and GithubDirect.MatchRepoUrl: regular expressions are characterised by their leftmost match rather than by a regular-expression engine.
- Backend.ClassifyAuthenticated: the length check looks at the stripped line before the label is removed, as written.
- Backend.WithoutSummaryLabel: the `IndexError` on a label whose case matches neither spelling is the `Raise` outcome. It becomes a 500 whose detail is the endpoint's error text.
- Backend.GenerateSuggestionsDirect: the 400 of a bad URL is caught and re-raised as a 500, as written.
- Backend.AuthCodeFramework: the code endpoint ignores a requested framework, as written.
- Dashboard.RootDirectoryShared: a top-level file and a file in a directory named `root` land in one group, as written.
- Dashboard.DashboardState.ToggleFileSelection and Selection.Toggle: these toggles have no five-file cap and remove every copy of a path; only the file selector caps the selection.
- FileSelector.HandleSelectAll: it compares counts only. A selection of the same size but different files is cleared.
- RepositoryDetails.BuildFileTree: it requires that no directory segment is a key the node object already answers to: `_files` at the root, the node's own fields (`type`, `name`, `path`, `expanded`, `_files`) below it, and the properties every JavaScript object inherits (`constructor`, `toString`, `__proto__` and the rest). The JavaScript would mix such an entry with those fields or inherited values.
- RepositoryDetails.GetFileLanguage: for an extension that is an inherited object property the JavaScript returns that property, not a string; the model returns `None` and does not model how the page shows it.
- Dashboard.GroupFiles: the render throws at a file whose directory is an inherited object property; the model returns no groups and leaves the page's failure out.
- RepositoryDetails.ToggleDirectory: the cursor walks of the page are modelled as recursion over the tree. The tree is rebuilt as a value, not shared. A segment with no directory entry of that name is skipped, so for a path such as `constructor/src` the model flips `src`; the page's walk would step onto the inherited or field value instead. The page only toggles paths of directories it built, which never contain such a segment.
- Case folding is ASCII only: Python's `str.lower` and JavaScript's `toLowerCase` also fold other letters.
- Utils.CleanedResponse, Utils.DropPrefix, Utils.DropSuffix, Utils.ParseLines, Utils.ExtractCodeFromAiResponse, GithubDirect.CleanRepoUrl, GithubDirect.ParseGithubUrl, Backend.ClassifyDirect, Backend.ClassifyAuthenticated and Backend.ParsedSuggestions: `strip` removes only the six ASCII whitespace characters. Python's `str.strip` also removes the separators `\x1c`-`\x1f` and Unicode spaces, so the backend would drop a leading or trailing one of those that the model keeps.
- RepoAnalyzer.FormatRepoUrl and RepoAnalyzer.AnalyzerPage.HandleAnalyze: `trim` removes only the six ASCII whitespace characters. JavaScript's `trim` also removes Unicode spaces and the separators U+2028 and U+2029, but keeps `\x1c`-`\x1f`, as the model does.
- Backend.ClassifyDirect, Backend.NumberedText, Utils.NumberMarker, Utils.WithoutMarker and Utils.ExtractCodeFromAiResponse: `isdigit`, `\d`, `\s` and `\w` are taken as ASCII; Python's also accept other Unicode digits, spaces and letters.
- Helpers.TruncateText: JavaScript counts `length` and `substring` in UTF-16 code units; the model counts characters.
- JSON serialisation of the session-storage snapshot is taken to give the snapshot back unchanged.
- The JSX element of the pull-request success message is flattened to its text.
