/**
  The request logic of the backend application: the in-memory session store
  and its expiry, bearer-token extraction, the turning of an AI answer into
  numbered test suggestions (with the fixed fallback templates), the ordered
  model cascade, test file names, and the choice and validation of the test
  framework. Remote calls (GitHub, the AI service) are parameters: the reply
  each would give.
*/
module Backend {
  import opened Outcome
  import opened Text
  import Config
  import Utils
  import GithubDirect

  // ---------------------------------------------------------------------
  // Sessions
  // ---------------------------------------------------------------------

  /** `TestSuggestion`: an id, a one-line summary and the framework. */
  datatype TestSuggestion = TestSuggestion(id: nat, summary: string, framework: string)

  /** What the authenticated suggestion endpoint remembers in the session. */
  datatype LastRequest = LastRequest(suggestions: seq<TestSuggestion>, files: seq<string>, repo: string)

  /** A session record; `created_at` may be missing. The server stores the
      float `time.time()`; this model takes times in whole seconds. */
  datatype Session = Session(
    githubToken: Option<string>, userLogin: string, createdAt: Option<int>, last: Option<LastRequest>)

  const SessionLifetimeSeconds: int := 86400

  /** A missing creation time counts as 0. */
  predicate Expired(s: Session, now: int) {
    now - (if s.createdAt.Some? then s.createdAt.value else 0) > SessionLifetimeSeconds
  }

  /** The tokens whose sessions have expired at `now`. */
  function ExpiredTokens(m: map<string, Session>, now: int): (ks: set<string>)
    ensures ks <= m.Keys
    ensures forall k :: k in m ==> (k in ks <==> Expired(m[k], now))
  {
    set k | k in m && Expired(m[k], now)
  }

  /** The sessions that have not expired at `now`, unchanged. */
  function Survivors(m: map<string, Session>, now: int): (r: map<string, Session>)
    ensures r.Keys == m.Keys - ExpiredTokens(m, now)
    ensures forall k :: k in r ==> r[k] == m[k]
  {
    map k | k in m && !Expired(m[k], now) :: m[k]
  }

  /** The expired and the surviving sessions partition the store. */
  lemma SurvivorsPartition(m: map<string, Session>, now: int)
    ensures |Survivors(m, now).Keys| + |ExpiredTokens(m, now)| == |m.Keys|
    ensures forall k :: k in Survivors(m, now) ==> !Expired(Survivors(m, now)[k], now)
  {
    var e := ExpiredTokens(m, now);
    assert m.Keys == (m.Keys - e) + e;
    assert (m.Keys - e) * e == {};
  }

  /** Expiry is idempotent: a second cleanup at the same time removes nothing. */
  lemma SurvivorsIdempotent(m: map<string, Session>, now: int)
    ensures ExpiredTokens(Survivors(m, now), now) == {}
    ensures Survivors(Survivors(m, now), now) == Survivors(m, now)
  {
  }

  /** `get_session_token`: the part of the `Authorization` header after
      exactly `Bearer ` (the header form of section 2.1 of RFC 6750),
      case-sensitive; nothing for a missing or empty header or another scheme. */
  function GetSessionToken(authorization: Option<string>): (token: Option<string>)
    ensures token.Some? <==> authorization.Some? && StartsWith(authorization.value, "Bearer ")
    ensures token.Some? ==> authorization.value == "Bearer " + token.value
  {
    if authorization.Some? && authorization.value != "" && StartsWith(authorization.value, "Bearer ")
    then Some(authorization.value[7..])
    else None
  }

  /** A token put after `Bearer ` is read back. */
  lemma BearerRoundTrip(token: string)
    ensures GetSessionToken(Some("Bearer " + token)) == Some(token)
  {
    assert ("Bearer " + token)[..7] == "Bearer ";
  }

  /** Python truthiness of an optional string. */
  predicate Given(s: Option<string>) {
    s.Some? && s.value != ""
  }

  /** The first pass of `cleanup_sessions`: every expired token, once. */
  method CollectExpired(m: map<string, Session>, now: int) returns (expired: seq<string>)
    ensures forall k :: k in expired <==> k in ExpiredTokens(m, now)
    ensures |expired| == |ExpiredTokens(m, now)|
  {
    expired := [];
    ghost var expiredSet: set<string> := {};
    var unvisited := m.Keys;
    while unvisited != {}
      invariant unvisited <= m.Keys
      invariant forall k :: k in expiredSet <==> k in m && k !in unvisited && Expired(m[k], now)
      invariant forall k :: k in expired <==> k in expiredSet
      invariant |expired| == |expiredSet|
      decreases unvisited
    {
      var token :| token in unvisited;
      if Expired(m[token], now) {
        expired := expired + [token];
        expiredSet := expiredSet + {token};
      }
      unvisited := unvisited - {token};
    }
    assert expiredSet == ExpiredTokens(m, now);
  }

  /** The module-level session dictionary and the operations that change it. */
  class SessionStore {
    var sessions: map<string, Session>

    constructor()
      ensures sessions == map[]
    {
      sessions := map[];
    }

    /** `get_github_token_from_session`. */
    function GithubTokenOf(token: string): (t: Option<string>)
      reads this
      ensures token !in sessions ==> t == None
      ensures token in sessions ==> t == sessions[token].githubToken
    {
      if token in sessions then sessions[token].githubToken else None
    }

    /** `cleanup_sessions`: one pass collects the expired tokens, a second
        deletes them; the count deleted is returned. */
    method CleanupSessions(now: int) returns (removed: nat)
      modifies this
      ensures sessions == Survivors(old(sessions), now)
      ensures removed == |ExpiredTokens(old(sessions), now)|
      ensures removed == |old(sessions).Keys| - |sessions.Keys|
    {
      var expired := CollectExpired(sessions, now);
      ghost var before := sessions;
      for j := 0 to |expired|
        invariant forall k :: k in sessions <==> k in before && k !in expired[..j]
        invariant forall k :: k in sessions ==> sessions[k] == before[k]
      {
        assert expired[..j + 1] == expired[..j] + [expired[j]];
        sessions := sessions - {expired[j]};
      }
      assert expired[..|expired|] == expired;
      assert sessions.Keys == Survivors(before, now).Keys;
      removed := |expired|;
      SurvivorsPartition(before, now);
    }

    /** `logout`: the caller's session is deleted when the header carries a
        non-empty token that has one; every other session is kept as it was. */
    method Logout(authorization: Option<string>) returns (message: string)
      modifies this
      ensures var t := GetSessionToken(authorization);
        sessions == if Given(t) && t.value in old(sessions) then old(sessions) - {t.value} else old(sessions)
      ensures Given(GetSessionToken(authorization)) ==> GetSessionToken(authorization).value !in sessions
      ensures message == "Logged out successfully"
    {
      var token := GetSessionToken(authorization);
      if Given(token) && token.value in sessions {
        sessions := sessions - {token.value};
      }
      message := "Logged out successfully";
    }

    /** `generate_test_suggestions` (the authenticated endpoint): the
        session checks, then the suggestions of `AuthSuggestions`, which are
        remembered in the caller's session. `fetches` are GitHub's answers
        for the requested files, `replies` those of the models. */
    method GenerateTestSuggestions(
      authorization: Option<string>, files: seq<string>, repoFullName: string,
      requested: Option<string>, fetches: seq<FileFetch>, replies: seq<Result<string>>)
      returns (r: Result<seq<TestSuggestion>>)
      requires |fetches| == |files| && |replies| == |CascadeModels|
      modifies this
      ensures !Given(GetSessionToken(authorization)) ==> r == Err(401, "Not authenticated")
      ensures Given(GetSessionToken(authorization)) && !Given(old(GithubTokenOf(GetSessionToken(authorization).value))) ==>
        r == Err(401, "GitHub token not found")
      ensures Given(GetSessionToken(authorization)) && Given(old(GithubTokenOf(GetSessionToken(authorization).value))) ==>
        r == AuthSuggestions(files, repoFullName, requested, fetches, replies)
      ensures r.Err? ==> sessions == old(sessions)
      ensures r.Ok? ==>
        var token := GetSessionToken(authorization).value;
        token in old(sessions) && Given(old(sessions)[token].githubToken)
        && sessions == old(sessions)[token := old(sessions)[token].(last := Some(LastRequest(r.value, files, repoFullName)))]
    {
      var token := GetSessionToken(authorization);
      if !Given(token) {
        return Err(401, "Not authenticated");
      }
      var githubToken := GithubTokenOf(token.value);
      if !Given(githubToken) {
        return Err(401, "GitHub token not found");
      }
      var suggestions := SuggestForRepository(files, repoFullName, requested, fetches, replies);
      if suggestions.Err? {
        return suggestions;
      }
      var session := sessions[token.value];
      sessions := sessions[token.value := session.(last := Some(LastRequest(suggestions.value, files, repoFullName)))];
      return suggestions;
    }
  }

  /** What GitHub answers when the authenticated endpoint fetches one file. */
  datatype FileFetch =
    | Base64File                              // a file whose base64 content decodes as UTF-8
    | OtherObject                             // an object without base64 encoding: skipped
    | Unusable                                // a directory listing, or content that is not UTF-8: raises
    | FetchFailed(status: int, detail: string) // the request helper's HTTPException

  /** The fetching loop of the authenticated endpoint: the number of file
      contents collected, or the error of the first fetch that raises. */
  function FetchedFiles(fetches: seq<FileFetch>): (r: Result<nat>)
    ensures r.Ok? <==> forall i :: 0 <= i < |fetches| ==> fetches[i] == Base64File || fetches[i] == OtherObject
    ensures r.Ok? ==> r.value == multiset(fetches)[Base64File]
    ensures r.Err? ==>
      exists i :: (0 <= i < |fetches| && FetchRaises(fetches[i]) && r == FetchError(fetches[i])
        && forall j :: 0 <= j < i ==> !FetchRaises(fetches[j]))
    decreases |fetches|
  {
    if fetches == [] then Ok(0)
    else if FetchRaises(fetches[0]) then FetchError(fetches[0])
    else
      var rest := FetchedFiles(fetches[1..]);
      assert forall i :: 1 <= i < |fetches| ==> fetches[1..][i - 1] == fetches[i];
      assert fetches == [fetches[0]] + fetches[1..];
      if rest.Err? then rest
      else Ok(rest.value + if fetches[0] == Base64File then 1 else 0)
  }

  predicate FetchRaises(f: FileFetch) {
    f.Unusable? || f.FetchFailed?
  }

  /** The error a raising fetch gives the client: the HTTPException as it
      is, anything else an unhandled 500. */
  function FetchError(f: FileFetch): (r: Result<nat>)
    requires FetchRaises(f)
    ensures r.Err?
  {
    if f.FetchFailed? then Err(f.status, f.detail) else Err(500, InternalError)
  }

  /** The loop over the requested files. */
  method FetchFiles(fetches: seq<FileFetch>) returns (r: Result<nat>)
    ensures r == FetchedFiles(fetches)
  {
    var count := 0;
    for k := 0 to |fetches|
      invariant forall j :: 0 <= j < k ==> !FetchRaises(fetches[j])
      invariant count == multiset(fetches[..k])[Base64File]
    {
      assert fetches[..k + 1] == fetches[..k] + [fetches[k]];
      if FetchRaises(fetches[k]) {
        FirstRaise(fetches, k);
      }
      match fetches[k] {
        case FetchFailed(status, detail) => return Err(status, detail);
        case Unusable => return Err(500, InternalError);
        case Base64File => count := count + 1;
        case OtherObject =>
      }
    }
    assert fetches[..|fetches|] == fetches;
    return Ok(count);
  }

  /** The first fetch that raises decides the error. */
  lemma {:induction false} FirstRaise(fetches: seq<FileFetch>, k: nat)
    requires k < |fetches| && FetchRaises(fetches[k])
    requires forall j :: 0 <= j < k ==> !FetchRaises(fetches[j])
    ensures FetchedFiles(fetches) == FetchError(fetches[k])
    decreases k
  {
    if k > 0 {
      assert fetches[1..][k - 1] == fetches[k];
      FirstRaise(fetches[1..], k - 1);
    }
  }

  /** `owner, repo = repo_full_name.split("/")` succeeds only for exactly
      two pieces. */
  predicate RepoNameSplits(repoFullName: string) {
    |Split(repoFullName, "/")| == 2
  }

  /** The suggestions of an answer: those parsed from it, or the fallback
      when none parse; a raising line fails the whole answer. */
  function SuggestionsFrom(endpoint: Endpoint, aiResponse: string, framework: string, files: seq<string>)
    : (r: Result<seq<TestSuggestion>>)
    ensures ParsedSuggestions(endpoint, aiResponse, framework).Err? ==> r == Err(500, RaiseDetail(endpoint))
    ensures r.Ok? ==>
      ParsedSuggestions(endpoint, aiResponse, framework).Ok?
      && r.value == WithFallback(ParsedSuggestions(endpoint, aiResponse, framework).value, framework, files)
    ensures r.Ok? ==> |r.value| >= 1 && forall i :: 0 <= i < |r.value| ==> r.value[i].framework == framework
  {
    var parsed := ParsedSuggestions(endpoint, aiResponse, framework);
    if parsed.Err? then Err(parsed.status, parsed.detail)
    else Ok(WithFallback(parsed.value, framework, files))
  }

  /** The authenticated suggestion endpoint once the session is checked, in
      the order of the source: the repository name must split in two (a
      `ValueError` otherwise), the files are fetched, the framework must be
      valid for the first file, the cascade must give an answer, and its
      parsed suggestions, or the fallback when none parse, are the result. */
  function AuthSuggestions(
    files: seq<string>, repoFullName: string, requested: Option<string>,
    fetches: seq<FileFetch>, replies: seq<Result<string>>): (r: Result<seq<TestSuggestion>>)
    ensures !RepoNameSplits(repoFullName) ==> r == Err(500, InternalError)
    ensures RepoNameSplits(repoFullName) && FetchedFiles(fetches).Err? ==>
      r == Err(FetchedFiles(fetches).status, FetchedFiles(fetches).detail)
    ensures RepoNameSplits(repoFullName) && FetchedFiles(fetches).Ok? ==>
      var framework := AuthSuggestionFramework(requested, files);
      (framework.Err? ==> r == Err(framework.status, framework.detail))
      && (framework.Ok? && CascadeResult(replies).Err? ==> r == Err(500, AllModelsFailed))
      && (framework.Ok? && CascadeResult(replies).Ok? ==>
            r == SuggestionsFrom(Authenticated, CascadeResult(replies).value, framework.value, files))
    ensures r.Ok? ==> files != [] && forall i :: 0 <= i < |r.value| ==>
      r.value[i].framework in Config.GetAvailableFrameworks(files[0])
  {
    if !RepoNameSplits(repoFullName) then Err(500, InternalError)
    else
      var fetched := FetchedFiles(fetches);
      if fetched.Err? then Err(fetched.status, fetched.detail)
      else
        var framework := AuthSuggestionFramework(requested, files);
        if framework.Err? then Err(framework.status, framework.detail)
        else
          var response := CascadeResult(replies);
          if response.Err? then Err(response.status, response.detail)
          else SuggestionsFrom(Authenticated, response.value, framework.value, files)
  }

  /** The steps of `AuthSuggestions`, with the fetching, cascade and parsing
      loops. */
  method SuggestForRepository(
    files: seq<string>, repoFullName: string, requested: Option<string>,
    fetches: seq<FileFetch>, replies: seq<Result<string>>)
    returns (r: Result<seq<TestSuggestion>>)
    requires |fetches| == |files| && |replies| == |CascadeModels|
    ensures r == AuthSuggestions(files, repoFullName, requested, fetches, replies)
  {
    if |Split(repoFullName, "/")| != 2 {
      return Err(500, InternalError);
    }
    var fetched := FetchFiles(fetches);
    if fetched.Err? {
      return Err(fetched.status, fetched.detail);
    }
    var framework := AuthSuggestionFramework(requested, files);
    if framework.Err? {
      return Err(framework.status, framework.detail);
    }
    var response := RunModelCascade(replies);
    if response.Err? {
      return Err(response.status, response.detail);
    }
    var parsed := ParseSuggestions(Authenticated, response.value, framework.value);
    if parsed.Err? {
      return Err(parsed.status, parsed.detail);
    }
    r := Ok(WithFallback(parsed.value, framework.value, files));
  }

  // ---------------------------------------------------------------------
  // Framework choice
  // ---------------------------------------------------------------------

  /** The detail FastAPI gives an exception no handler catches. */
  const InternalError: string := "Internal Server Error"

  /** `detect_test_framework`: the default framework of the path's language
      entry, always one that is offered for the path. */
  function DetectTestFramework(path: string): (framework: string)
    ensures framework in Config.GetAvailableFrameworks(path)
    ensures framework == Config.LanguageEntryOf(path).defaultFramework
  {
    Config.GetLanguageConfig(path).framework
  }

  /** `is_code_file`: a supported extension and no excluded pattern. No path
      mentioning `test` is a code file. */
  function IsCodeFile(path: string): (b: bool)
    ensures b ==> Config.GetLanguageConfig(path).language != "unknown"
    ensures Contains(Lower(path), "test") ==> !b
  {
    if Contains(Lower(path), "test") then Config.TestPathsExcluded(path); false
    else Config.IsSupportedFile(path) && !Config.ShouldExcludeFile(path)
  }

  /** Python's `repr` of a list of strings, as in `['pytest', 'selenium']`. */
  function ListRepr(xs: seq<string>): string {
    "[" + Join(seq(|xs|, i requires 0 <= i < |xs| => "'" + xs[i] + "'"), ", ") + "]"
  }

  /** The framework of the authenticated suggestion endpoint: a requested
      framework must be offered for the first file (400 otherwise); without a
      request the first file's default is used. An empty file list fails on
      `files[0]`. */
  function AuthSuggestionFramework(requested: Option<string>, files: seq<string>): (r: Result<string>)
    ensures files == [] ==> r == Err(500, InternalError)
    ensures r.Ok? ==> files != [] && r.value in Config.GetAvailableFrameworks(files[0])
    ensures files != [] && Given(requested) ==>
      (r.Ok? <==> requested.value in Config.GetAvailableFrameworks(files[0]))
    ensures r.Ok? && Given(requested) ==> r.value == requested.value
    ensures r.Err? && files != [] ==> r.status == 400
  {
    if files == [] then Err(500, InternalError)
    else if Given(requested) then
      var available := Config.GetAvailableFrameworks(files[0]);
      if requested.value in available then Ok(requested.value)
      else Err(400, "Framework '" + requested.value + "' not supported for file type. Available: " + ListRepr(available))
    else Ok(DetectTestFramework(files[0]))
  }

  /** The framework of the authenticated code endpoint: the first file's
      default, whatever was requested. */
  function AuthCodeFramework(files: seq<string>): (r: Result<string>)
    ensures files == [] ==> r.Err? && r.status == 500
    ensures files != [] ==> r == Ok(Config.GetLanguageConfig(files[0]).framework)
  {
    if files == [] then Err(500, InternalError) else Ok(DetectTestFramework(files[0]))
  }

  /** A request that names the first file's default framework is served
      with the same framework by the suggestion and the code endpoints. */
  lemma AuthFrameworksAgreeOnDefault(files: seq<string>)
    requires files != []
    ensures AuthSuggestionFramework(Some(Config.GetLanguageConfig(files[0]).framework), files) == AuthCodeFramework(files)
    ensures AuthSuggestionFramework(None, files) == AuthCodeFramework(files)
  {
  }

  /** The framework of the direct endpoints: a requested one is taken as it
      is, without validation; otherwise the language lookup of the first
      file decides. `None` stands for the failure of `files[0]`. */
  function DirectFramework(requested: Option<string>, files: seq<string>): (r: Option<string>)
    ensures Given(requested) ==> r == Some(requested.value)
    ensures !Given(requested) && files != [] ==> r == Some(Config.GetLanguageConfig(files[0]).framework)
    ensures !Given(requested) && files == [] ==> r.None?
  {
    if Given(requested) then Some(requested.value)
    else if files == [] then None
    else
      GithubDirect.LookupsAgreeWithConfig(files[0]);
      Some(GithubDirect.DetectFrameworkFromLanguage(GithubDirect.DetectLanguageFromExtension(files[0])))
  }

  // ---------------------------------------------------------------------
  // Parsing AI answers into suggestions
  // ---------------------------------------------------------------------

  /** Which endpoint's line rules apply. */
  datatype Endpoint = Direct | Authenticated

  /** What one line contributes: nothing, a summary, or an exception. */
  datatype LineOutcome = Skip | Keep(summary: string) | Raise

  const SubItemKeywords: seq<string> := ["input:", "expected result:", "expected output:", "- input", "- expected"]

  /** The lower-cased line mentions one of the sub-item keywords. */
  predicate IsSubItem(line: string) {
    exists k :: 0 <= k < |SubItemKeywords| && Contains(Lower(line), SubItemKeywords[k])
  }

  lemma FirstPieceIsPrefix(s: string, sep: string)
    requires |sep| > 0
    ensures StartsWith(s, Split(s, sep)[0])
  {
    match IndexOf(s, sep)
    case None =>
    case Some(i) => SplitAtFirst(s, sep, i);
  }

  /** `sep.join(s.split(sep)[1:])`: everything after the first `sep`, or ""
      when there is none. */
  function AfterFirst(s: string, sep: string): (r: string)
    requires |sep| > 0
    ensures IndexOf(s, sep).Some? ==> r == s[IndexOf(s, sep).value + |sep|..]
    ensures IndexOf(s, sep).None? ==> r == ""
  {
    AfterFirstFacts(s, sep);
    Join(Split(s, sep)[1..], sep)
  }

  lemma AfterFirstFacts(s: string, sep: string)
    requires |sep| > 0
    ensures IndexOf(s, sep).Some? ==> Join(Split(s, sep)[1..], sep) == s[IndexOf(s, sep).value + |sep|..]
    ensures IndexOf(s, sep).None? ==> Join(Split(s, sep)[1..], sep) == ""
  {
    match IndexOf(s, sep)
    case None =>
    case Some(i) =>
      var rest := s[i + |sep|..];
      SplitAtFirst(s, sep, i);
      assert Split(s, sep)[1..] == Split(rest, sep);
      JoinSplit(rest, sep);
  }

  /** `s.split(sep)[1]` for a string holding `sep`: the text between the
      first occurrence and the next one (or the end). */
  function SecondPiece(s: string, sep: string): (r: string)
    requires |sep| > 0 && Contains(s, sep)
    ensures !Contains(r, sep)
    ensures StartsWith(AfterFirst(s, sep), r)
  {
    var i := IndexOf(s, sep).value;
    SplitAtFirst(s, sep, i);
    SplitPiecesAvoidSeparator(s, sep);
    FirstPieceIsPrefix(s[i + |sep|..], sep);
    assert Split(s, sep)[1] == Split(s[i + |sep|..], sep)[0];
    Split(s, sep)[1]
  }

  const SummaryLabel: string := "test case summary:"

  /** The `Test case summary:` handling: when the lower-cased text has the
      label, the piece after `Test case summary: ` (tried first) or after
      `test case summary: ` is taken; if neither exact form is present the
      indexing fails (`None`). */
  function WithoutSummaryLabel(clean: string): (r: Option<string>)
    ensures !Contains(Lower(clean), SummaryLabel) ==> r == Some(clean)
    ensures r.None? <==> (Contains(Lower(clean), SummaryLabel)
      && !Contains(clean, "Test case summary: ") && !Contains(clean, "test case summary: "))
    ensures r.Some? && Contains(Lower(clean), SummaryLabel) ==>
      !Contains(r.value, "Test case summary: ") || !Contains(r.value, "test case summary: ")
  {
    if !Contains(Lower(clean), SummaryLabel) then Some(clean)
    else if Contains(clean, "Test case summary: ") then Some(SecondPiece(clean, "Test case summary: "))
    else if Contains(clean, "test case summary: ") then Some(SecondPiece(clean, "test case summary: "))
    else None
  }

  /** A line of the direct endpoint: a stripped line that starts with a digit
      and holds `. ` and no sub-item keyword; its text after the first `. `,
      label removed, is kept stripped when longer than ten characters. */
  function ClassifyDirect(raw: string): (o: LineOutcome)
    ensures o != Skip ==> var line := Strip(raw);
      line != [] && IsDigit(line[0]) && Contains(line, ". ") && !IsSubItem(line)
    ensures o.Keep? ==> Stripped(o.summary)
  {
    var line := Strip(raw);
    if line != [] && IsDigit(line[0]) && Contains(line, ". ") then
      if IsSubItem(line) then Skip
      else
        match WithoutSummaryLabel(AfterFirst(line, ". "))
        case None => Raise
        case Some(clean) => if clean != "" && |clean| > 10 then Keep(Strip(clean)) else Skip
    else Skip
  }

  /** The three numbering patterns of the authenticated endpoint, in order:
      `N. ` (with the label handling), `N) `, and a digit followed by a space. */
  function NumberedText(line: string): (o: LineOutcome)
    requires |line| > 10
    ensures o != Skip ==> IsDigit(line[0])
  {
    if IsDigit(line[0]) && Contains(line, ". ") then
      match WithoutSummaryLabel(AfterFirst(line, ". "))
      case None => Raise
      case Some(clean) => Keep(clean)
    else if IsDigit(line[0]) && Contains(line, ") ") then Keep(AfterFirst(line, ") "))
    else if IsDigit(line[0]) && line[1] == ' ' then Keep(Strip(line[2..]))
    else Skip
  }

  /** A line of the authenticated endpoint: sub-items are skipped first;
      a stripped line longer than ten characters that matches a numbering
      pattern is kept, stripped, when its text is longer than fifteen. */
  function ClassifyAuthenticated(raw: string): (o: LineOutcome)
    ensures o != Skip ==> var line := Strip(raw);
      |line| > 10 && IsDigit(line[0]) && !IsSubItem(line)
    ensures o.Keep? ==> Stripped(o.summary)
  {
    var line := Strip(raw);
    if IsSubItem(line) then Skip
    else if |line| > 10 then
      match NumberedText(line)
      case Keep(clean) => if clean != "" && |clean| > 15 then Keep(Strip(clean)) else Skip
      case Raise => Raise
      case Skip => Skip
    else Skip
  }

  /** The line classification of an endpoint; every summary it keeps is
      stripped. */
  function Classifier(endpoint: Endpoint): (classify: string -> LineOutcome)
    ensures StrippedSummaries(classify)
  {
    match endpoint
    case Direct => ClassifyDirect
    case Authenticated => ClassifyAuthenticated
  }

  ghost predicate StrippedSummaries(classify: string -> LineOutcome) {
    forall line :: classify(line).Keep? ==> Stripped(classify(line).summary)
  }

  /** The text after the first `. ` of `N. text` is `text`. */
  lemma NumberedLineText(number: nat, text: string)
    ensures AfterFirst(NatToString(number) + ". " + text, ". ") == text
  {
    var digits := NatToString(number);
    var line := digits + ". " + text;
    assert OccursAt(line, ". ", |digits|);
    forall j: nat | j < |digits|
      ensures !OccursAt(line, ". ", j)
    {
      assert line[j] == digits[j];
      assert line[j..j + 2][0] == line[j];
    }
    assert IndexOf(line, ". ") == Some(|digits|);
  }

  lemma NumberedLineShape(number: nat, text: string)
    requires Stripped(text) && text != []
    ensures var line := NatToString(number) + ". " + text;
      Strip(line) == line && IsDigit(line[0]) && Contains(line, ". ")
  {
    var digits := NatToString(number);
    var line := digits + ". " + text;
    NumberedLineEnds(digits, text);
    assert Stripped(line);
    assert OccursAt(line, ". ", |digits|) by {
      assert line[|digits|..|digits| + 2] == ". ";
    }
  }

  /** `N. text` starts with the first digit and ends with the text's last
      character. */
  lemma NumberedLineEnds(digits: string, text: string)
    requires digits != [] && text != []
    ensures var line := digits + ". " + text;
      line[0] == digits[0] && line[|line| - 1] == text[|text| - 1]
  {
  }

  /** A line `N. text` with a plain text gives that text on both endpoints
      (on the authenticated one when the text is longer than fifteen). */
  lemma NumberedLineKept(number: nat, text: string)
    requires Stripped(text) && |text| > 10
    requires !IsSubItem(NatToString(number) + ". " + text)
    requires !Contains(Lower(text), SummaryLabel)
    ensures ClassifyDirect(NatToString(number) + ". " + text) == Keep(text)
    ensures |text| > 15 ==> ClassifyAuthenticated(NatToString(number) + ". " + text) == Keep(text)
  {
    NumberedLineShape(number, text);
    NumberedLineText(number, text);
  }

  /** The outcome of every line, in order. */
  function Outcomes(classify: string -> LineOutcome, lines: seq<string>): (os: seq<LineOutcome>)
    ensures |os| == |lines|
    ensures forall i :: 0 <= i < |os| ==> os[i] == classify(lines[i])
  {
    seq(|lines|, i requires 0 <= i < |lines| => classify(lines[i]))
  }

  /** The summaries kept, in order, or `None` once an outcome raises. */
  function Kept(outcomes: seq<LineOutcome>): (r: Option<seq<string>>)
    ensures r.Some? ==> |r.value| <= |outcomes|
    ensures r.None? <==> exists i :: 0 <= i < |outcomes| && outcomes[i].Raise?
    ensures r.Some? && (forall i :: 0 <= i < |outcomes| && outcomes[i].Keep? ==> Stripped(outcomes[i].summary)) ==>
      forall i :: 0 <= i < |r.value| ==> Stripped(r.value[i])
  {
    if outcomes == [] then Some([])
    else
      var init := outcomes[..|outcomes| - 1];
      assert forall i :: 0 <= i < |init| ==> init[i] == outcomes[i];
      match Kept(init)
      case None => None
      case Some(xs) =>
        match outcomes[|outcomes| - 1]
        case Skip => Some(xs)
        case Keep(s) => Some(xs + [s])
        case Raise => None
  }

  /** Summaries numbered 1, 2, ... and tagged with the framework. */
  function Numbered(summaries: seq<string>, framework: string): seq<TestSuggestion> {
    seq(|summaries|, i requires 0 <= i < |summaries| => TestSuggestion(i + 1, summaries[i], framework))
  }

  /** The detail of the error a raising line causes. */
  function RaiseDetail(endpoint: Endpoint): string {
    match endpoint
    case Direct => DirectFailure("list index out of range")
    case Authenticated => InternalError
  }

  /** The suggestions parsed from an answer, before any fallback. */
  function ParsedSuggestions(endpoint: Endpoint, aiResponse: string, framework: string): (r: Result<seq<TestSuggestion>>)
    ensures r.Err? ==> r.status == 500
    ensures r.Ok? ==> forall i :: 0 <= i < |r.value| ==>
      r.value[i].id == i + 1 && r.value[i].framework == framework && Stripped(r.value[i].summary)
  {
    ParsedLines(Classifier(endpoint), Split(Strip(aiResponse), "\n"), framework, RaiseDetail(endpoint))
  }

  /** The suggestions parsed from the lines of an answer: the kept summaries
      numbered from 1, or a 500 with `detail` once a line raises. */
  function ParsedLines(classify: string -> LineOutcome, lines: seq<string>, framework: string, detail: string)
    : (r: Result<seq<TestSuggestion>>)
    requires StrippedSummaries(classify)
    ensures r.Err? ==> r == Err(500, detail)
    ensures r.Ok? ==> forall i :: 0 <= i < |r.value| ==>
      r.value[i].id == i + 1 && r.value[i].framework == framework && Stripped(r.value[i].summary)
  {
    match Kept(Outcomes(classify, lines))
    case None => Err(500, detail)
    case Some(xs) => Ok(Numbered(xs, framework))
  }

  /** The parsing of either endpoint: the lines of the stripped answer go
      through the parsing loop. */
  method ParseSuggestions(endpoint: Endpoint, aiResponse: string, framework: string)
    returns (r: Result<seq<TestSuggestion>>)
    ensures r == ParsedSuggestions(endpoint, aiResponse, framework)
  {
    var lines := Split(Strip(aiResponse), "\n");
    r := ParseLines(Classifier(endpoint), lines, framework, RaiseDetail(endpoint));
  }

  /** The parsing loop: lines classified in order, summaries numbered from 1,
      the first raising line ending the parse with an error. */
  method ParseLines(classify: string -> LineOutcome, lines: seq<string>, framework: string, detail: string)
    returns (r: Result<seq<TestSuggestion>>)
    requires StrippedSummaries(classify)
    ensures r == ParsedLines(classify, lines, framework, detail)
  {
    ghost var outcomes := Outcomes(classify, lines);
    ghost var kept: seq<string> := [];
    var suggestions: seq<TestSuggestion> := [];
    var suggestionId := 1;
    for k := 0 to |lines|
      invariant Kept(outcomes[..k]) == Some(kept)
      invariant suggestions == Numbered(kept, framework)
      invariant suggestionId == |suggestions| + 1
    {
      var outcome := classify(lines[k]);
      KeptStep(outcomes, k);
      match outcome {
        case Skip =>
        case Raise =>
          assert outcomes[k].Raise?;
          return Err(500, detail);
        case Keep(s) =>
          NumberedSnoc(kept, s, framework);
          kept := kept + [s];
          suggestions := suggestions + [TestSuggestion(suggestionId, s, framework)];
          suggestionId := suggestionId + 1;
      }
    }
    assert outcomes[..|lines|] == outcomes;
    r := Ok(suggestions);
  }

  lemma KeptStep(outcomes: seq<LineOutcome>, k: nat)
    requires k < |outcomes|
    ensures Kept(outcomes[..k + 1]) == match Kept(outcomes[..k])
      case None => None
      case Some(xs) => (match outcomes[k]
        case Skip => Some(xs)
        case Keep(s) => Some(xs + [s])
        case Raise => None)
  {
    assert outcomes[..k + 1][..k] == outcomes[..k];
  }

  lemma NumberedSnoc(summaries: seq<string>, s: string, framework: string)
    ensures Numbered(summaries + [s], framework) == Numbered(summaries, framework) + [TestSuggestion(|summaries| + 1, s, framework)]
  {
  }

  /** The fallback templates of each framework. */
  const PytestTemplates: seq<string> := [
      "Test function return values and data types",
      "Test exception handling and error cases",
      "Test input validation and boundary conditions",
      "Test function behavior with edge cases and null values",
      "Test integration with external dependencies"]

  const JestTemplates: seq<string> := [
      "Test component rendering and props",
      "Test user interactions and event handlers",
      "Test state management and updates",
      "Test API calls and async operations",
      "Test error boundaries and error handling"]

  const JunitTemplates: seq<string> := [
      "Test method functionality and return values",
      "Test exception handling and error scenarios",
      "Test input validation and parameter checking",
      "Test class initialization and object state",
      "Test integration with external services"]

  const GenericTemplates: seq<string> := [
      "Test core functionality and expected behavior",
      "Test error handling and exception scenarios",
      "Test input validation and data processing",
      "Test edge cases and boundary conditions",
      "Test performance and resource usage"]

  /** The five template openings for a framework (pytest, jest, junit, other). */
  function FallbackTemplates(framework: string): (ts: seq<string>)
    ensures |ts| == 5
  {
    if framework == "pytest" then PytestTemplates
    else if framework == "jest" then JestTemplates
    else if framework == "junit" then JunitTemplates
    else GenericTemplates
  }

  /** The first requested file, or `code` when there is none. */
  function FirstFileOrCode(files: seq<string>): string {
    if files != [] then files[0] else "code"
  }

  /** The fallback: five suggestions numbered 1 to 5, chosen only by the
      framework, each naming the first file at its end. */
  function FallbackSuggestions(framework: string, files: seq<string>): (r: seq<TestSuggestion>)
    ensures |r| == 5
    ensures forall i :: 0 <= i < 5 ==>
      r[i].id == i + 1 && r[i].framework == framework
      && EndsWith(r[i].summary, " in " + FirstFileOrCode(files))
  {
    var first := FirstFileOrCode(files);
    var templates := FallbackTemplates(framework);
    Numbered(seq(5, i requires 0 <= i < 5 => templates[i] + " in " + first), framework)
  }

  /** Parsed suggestions, or the fallback when none were parsed: never empty. */
  function WithFallback(parsed: seq<TestSuggestion>, framework: string, files: seq<string>): (r: seq<TestSuggestion>)
    ensures |r| >= 1
    ensures parsed != [] ==> r == parsed
    ensures (forall i :: 0 <= i < |parsed| ==> parsed[i].framework == framework) ==>
      forall i :: 0 <= i < |r| ==> r[i].framework == framework
  {
    if parsed == [] then FallbackSuggestions(framework, files) else parsed
  }

  /** `str(HTTPException)`: the status code, a colon and the detail. */
  function HttpErrorText(status: int, detail: string): string {
    IntToString(status) + ": " + detail
  }

  /** What `call_openrouter_api` gives: the answer's content, the
      HTTPException it raises on a reply other than 200, or the text of any
      other exception (a timeout, a refused connection, a missing `choices`
      key, which reads `'choices'`). */
  datatype AiOutcome = Answer(content: string) | HttpFailure(status: int, detail: string) | Raised(error: string)

  /** `str(e)` of a failed AI call. */
  function AiErrorText(o: AiOutcome): (t: string)
    requires !o.Answer?
    ensures o.HttpFailure? ==> t == HttpErrorText(o.status, o.detail)
    ensures o.Raised? ==> t == o.error
  {
    if o.HttpFailure? then HttpErrorText(o.status, o.detail) else o.error
  }

  /** The body of a successful direct suggestion request. */
  datatype DirectSuggestionsReply = DirectSuggestionsReply(
    repository: string, framework: string, suggestions: seq<TestSuggestion>, filesAnalyzed: seq<string>)

  /** `generate_suggestions_direct`: every failure, a malformed URL among
      them, becomes a 500 whose detail carries the original error text; a
      success names the repository `owner/repo`, the framework, the
      suggestions and the files asked for. `fetchFailure` is the text of the
      error fetching the files raised, if any; `ai` is what the AI call
      gives. */
  method GenerateSuggestionsDirect(
    repoUrl: string, files: seq<string>, requested: Option<string>,
    fetchFailure: Option<string>, ai: AiOutcome)
    returns (r: Result<DirectSuggestionsReply>)
    ensures GithubDirect.ParseGithubUrl(repoUrl).Err? ==>
      r == Err(500, DirectFailure(HttpErrorText(400, GithubDirect.ParseGithubUrl(repoUrl).detail)))
    ensures GithubDirect.ParseGithubUrl(repoUrl).Ok? && DirectSuggestions(files, requested, fetchFailure, ai).Err? ==>
      r == Err(500, DirectSuggestions(files, requested, fetchFailure, ai).detail)
    ensures GithubDirect.ParseGithubUrl(repoUrl).Ok? && DirectSuggestions(files, requested, fetchFailure, ai).Ok? ==>
      var (owner, repo) := GithubDirect.ParseGithubUrl(repoUrl).value;
      DirectFramework(requested, files).Some? &&
      r == Ok(DirectSuggestionsReply(owner + "/" + repo, DirectFramework(requested, files).value,
                                     DirectSuggestions(files, requested, fetchFailure, ai).value, files))
    ensures r.Err? ==> r.status == 500
  {
    var ownerRepo := GithubDirect.ParseGithubUrl(repoUrl);
    if ownerRepo.Err? {
      return Err(500, DirectFailure(HttpErrorText(ownerRepo.status, ownerRepo.detail)));
    }
    var (owner, repo) := ownerRepo.value;
    var suggestions := SuggestDirect(files, requested, fetchFailure, ai);
    if suggestions.Err? {
      return Err(500, suggestions.detail);
    }
    r := Ok(DirectSuggestionsReply(owner + "/" + repo, DirectFramework(requested, files).value, suggestions.value, files));
  }

  /** The detail of the 500 the direct endpoint turns every error into. */
  function DirectFailure(error: string): string {
    "Failed to generate suggestions: " + error
  }

  /** The direct endpoint once the URL is understood, in the order of the
      source: a failed fetch, a missing first file, a failed AI call and a
      raising line are each a 500 carrying the error's text; otherwise the
      parsed suggestions, or the fallback when none parse, are the result. */
  function DirectSuggestions(files: seq<string>, requested: Option<string>, fetchFailure: Option<string>, ai: AiOutcome)
    : (r: Result<seq<TestSuggestion>>)
    ensures r.Err? ==> r.status == 500
    ensures r.Ok? ==> fetchFailure.None? && DirectFramework(requested, files).Some? && ai.Answer?
    ensures fetchFailure.Some? ==> r == Err(500, DirectFailure(fetchFailure.value))
    ensures fetchFailure.None? && DirectFramework(requested, files).None? ==>
      r == Err(500, DirectFailure("list index out of range"))
    ensures fetchFailure.None? && DirectFramework(requested, files).Some? && ai.HttpFailure? ==>
      r == Err(500, DirectFailure(HttpErrorText(ai.status, ai.detail)))
    ensures fetchFailure.None? && DirectFramework(requested, files).Some? && ai.Raised? ==>
      r == Err(500, DirectFailure(ai.error))
    ensures fetchFailure.None? && DirectFramework(requested, files).Some? && ai.Answer? ==>
      r == SuggestionsFrom(Direct, ai.content, DirectFramework(requested, files).value, files)
  {
    if fetchFailure.Some? then Err(500, DirectFailure(fetchFailure.value))
    else
      var framework := DirectFramework(requested, files);
      if framework.None? then Err(500, DirectFailure("list index out of range"))
      else if !ai.Answer? then Err(500, DirectFailure(AiErrorText(ai)))
      else SuggestionsFrom(Direct, ai.content, framework.value, files)
  }

  /** The steps of `DirectSuggestions`, with the parsing loop. */
  method SuggestDirect(files: seq<string>, requested: Option<string>, fetchFailure: Option<string>, ai: AiOutcome)
    returns (r: Result<seq<TestSuggestion>>)
    ensures r == DirectSuggestions(files, requested, fetchFailure, ai)
  {
    if fetchFailure.Some? {
      return Err(500, DirectFailure(fetchFailure.value));
    }
    var framework := DirectFramework(requested, files);
    if framework.None? {
      return Err(500, DirectFailure("list index out of range"));
    }
    if !ai.Answer? {
      return Err(500, DirectFailure(AiErrorText(ai)));
    }
    var parsed := ParseSuggestions(Direct, ai.content, framework.value);
    if parsed.Err? {
      return Err(500, parsed.detail);
    }
    r := Ok(WithFallback(parsed.value, framework.value, files));
  }

  // ---------------------------------------------------------------------
  // The model cascade
  // ---------------------------------------------------------------------

  const CascadeModels: seq<string> := [
    "mistralai/mistral-7b-instruct",
    "openai/gpt-3.5-turbo",
    "anthropic/claude-3-haiku",
    "meta-llama/llama-3-8b-instruct"
  ]

  /** A reply good enough to stop at: more than 50 characters once stripped. */
  predicate GoodReply(t: string) {
    |Strip(t)| > 50
  }

  /** The reply kept after trying the remaining models, given the one kept
      so far: a good reply stops the search, any other reply replaces the
      kept one, a failed call leaves it. */
  function Cascade(replies: seq<Result<string>>, kept: Option<string>): (r: Option<string>)
    ensures kept.Some? ==> r.Some?
    ensures r.Some? ==> r == kept || exists i :: 0 <= i < |replies| && replies[i] == Ok(r.value)
    ensures (forall i :: 0 <= i < |replies| ==> replies[i].Err?) ==> r == kept
    decreases |replies|
  {
    if replies == [] then kept
    else
      assert forall i :: 1 <= i < |replies| ==> replies[1..][i - 1] == replies[i];
      match replies[0]
      case Err(_, _) => Cascade(replies[1..], kept)
      case Ok(t) => if GoodReply(t) then Some(t) else Cascade(replies[1..], Some(t))
  }

  const AllModelsFailed: string := "All AI models failed to generate suggestions"

  /** The cascade's outcome: the kept reply, or a 500 when there is none or
      it is empty. */
  function CascadeResult(replies: seq<Result<string>>): (r: Result<string>)
    ensures r.Ok? ==> r.value != "" && exists i :: 0 <= i < |replies| && replies[i] == Ok(r.value)
    ensures r.Err? ==> r == Err(500, AllModelsFailed)
  {
    match Cascade(replies, None)
    case None => Err(500, AllModelsFailed)
    case Some(t) => if t == "" then Err(500, AllModelsFailed) else Ok(t)
  }

  /** The loop over the models in their fixed order. */
  method RunModelCascade(replies: seq<Result<string>>) returns (r: Result<string>)
    requires |replies| == |CascadeModels|
    ensures r == CascadeResult(replies)
  {
    var aiResponse: Option<string> := None;
    for i := 0 to |CascadeModels|
      invariant Cascade(replies[i..], aiResponse) == Cascade(replies, None)
    {
      assert replies[i..][1..] == replies[i + 1..];
      match replies[i] {
        case Err(_, _) =>
        case Ok(t) =>
          aiResponse := Some(t);
          if GoodReply(t) {
            assert aiResponse == Cascade(replies, None);
            break;
          }
      }
    }
    if aiResponse.None? || aiResponse.value == "" {
      return Err(500, AllModelsFailed);
    }
    return Ok(aiResponse.value);
  }

  /** The first good reply wins, whatever the later models would say. */
  lemma {:induction false} CascadeStopsAtFirstGood(replies: seq<Result<string>>, kept: Option<string>, i: nat, t: string)
    requires i < |replies| && replies[i] == Ok(t) && GoodReply(t)
    requires forall j :: 0 <= j < i ==> replies[j].Err? || !GoodReply(replies[j].value)
    ensures Cascade(replies, kept) == Some(t)
    decreases i
  {
    if i > 0 {
      var next := if replies[0].Ok? then Some(replies[0].value) else kept;
      assert replies[1..][i - 1] == replies[i];
      CascadeStopsAtFirstGood(replies[1..], next, i - 1, t);
    }
  }

  /** The last reply that did not fail, or `kept` when all failed. */
  function LatestReply(replies: seq<Result<string>>, kept: Option<string>): Option<string> {
    if replies == [] then kept
    else if replies[|replies| - 1].Ok? then Some(replies[|replies| - 1].value)
    else LatestReply(replies[..|replies| - 1], kept)
  }

  lemma {:induction false} LatestReplyFront(replies: seq<Result<string>>, kept: Option<string>)
    requires replies != []
    ensures LatestReply(replies, kept) ==
      LatestReply(replies[1..], if replies[0].Ok? then Some(replies[0].value) else kept)
    decreases |replies|
  {
    if |replies| > 1 && replies[|replies| - 1].Err? {
      var init := replies[..|replies| - 1];
      LatestReplyFront(init, kept);
      assert init[1..] == replies[1..][..|replies[1..]| - 1];
    } else if |replies| == 1 {
      assert replies[..0] == [];
    }
  }

  /** With no good reply, the cascade keeps the latest reply that did not fail. */
  lemma {:induction false} CascadeKeepsLatest(replies: seq<Result<string>>, kept: Option<string>)
    requires forall j :: 0 <= j < |replies| ==> replies[j].Err? || !GoodReply(replies[j].value)
    ensures Cascade(replies, kept) == LatestReply(replies, kept)
    decreases |replies|
  {
    if replies != [] {
      var next := if replies[0].Ok? then Some(replies[0].value) else kept;
      assert forall j :: 0 <= j < |replies[1..]| ==> replies[1..][j] == replies[j + 1];
      CascadeKeepsLatest(replies[1..], next);
      LatestReplyFront(replies, kept);
    }
  }

  // ---------------------------------------------------------------------
  // Test file names
  // ---------------------------------------------------------------------

  /** The frameworks the direct code endpoint's extension table lists. */
  const DirectExtensionFrameworks: set<string> :=
    {"pytest", "selenium", "jest", "cypress", "playwright", "junit", "testing", "rspec"}

  /** The extension table of the direct code endpoint: a listed framework
      gets the extension of a supported language that uses it, jest and
      playwright `js` for JavaScript and `ts` otherwise, and any other
      framework `py`. */
  function DirectTestExtension(framework: string, primaryLanguage: string): (ext: string)
    ensures '/' !in ext
    ensures framework !in DirectExtensionFrameworks ==> ext == "py"
    ensures framework == "jest" || framework == "playwright" ==>
      (ext == "js" <==> primaryLanguage == "javascript") && (ext == "js" || ext == "ts")
  {
    if framework == "pytest" || framework == "selenium" then "py"
    else if framework == "jest" || framework == "playwright" then (if primaryLanguage == "javascript" then "js" else "ts")
    else if framework == "cypress" then "js"
    else if framework == "junit" then "java"
    else if framework == "testing" then "go"
    else if framework == "rspec" then "rb"
    else "py"
  }

  /** The test file of a framework the direct table lists is a supported
      file of a language that uses that framework. */
  lemma DirectExtensionFits(framework: string, primaryLanguage: string)
    requires framework in DirectExtensionFrameworks
    ensures Config.LanguageUses(DirectTestExtension(framework, primaryLanguage), framework)
  {
    var ext := DirectTestExtension(framework, primaryLanguage);
    if framework == "pytest" || framework == "selenium" {
      assert ext == "py";
      Config.PythonUses();
    } else if framework == "cypress" {
      assert ext == "js";
      Config.JavaScriptUses();
    } else if framework == "jest" || framework == "playwright" {
      assert ext == "js" || ext == "ts";
      Config.JavaScriptUses();
      Config.TypeScriptUses();
    } else {
      assert ext == "java" || ext == "go" || ext == "rb";
      Config.JavaGoRubyUse();
    }
  }

  /** The file name the direct code endpoint suggests. */
  function DirectSuggestedFilename(firstFile: string, framework: string, primaryLanguage: string): (name: string)
    ensures '/' !in name
    ensures framework == "selenium" ==> name == "test_" + Utils.BaseName(firstFile) + "_selenium.py"
    ensures framework == "cypress" ==> name == Utils.BaseName(firstFile) + ".spec.js"
    ensures framework == "playwright" ==>
      name == Utils.BaseName(firstFile) + ".spec." + (if primaryLanguage == "javascript" then "js" else "ts")
    ensures framework != "selenium" && framework != "cypress" && framework != "playwright" ==>
      name == "test_" + Utils.BaseName(firstFile) + "." + DirectTestExtension(framework, primaryLanguage)
  {
    var base := Utils.BaseName(firstFile);
    var ext := DirectTestExtension(framework, primaryLanguage);
    if framework == "selenium" then
      var head := "test_" + base + "_selenium.";
      assert '/' !in head && ext == "py";
      head + ext
    else if framework == "cypress" || framework == "playwright" then
      var head := base + ".spec.";
      assert '/' !in head;
      head + ext
    else
      var head := "test_" + base + ".";
      assert '/' !in head;
      head + ext
  }

  const AuthLanguageMap: map<string, string> := map[
    "py" := "python", "js" := "javascript", "jsx" := "javascript", "ts" := "typescript", "tsx" := "typescript"
  ]

  /** The authenticated code endpoint's primary language: looked up from the
      lower-cased text after the last dot (the whole name without a dot),
      that text itself when unlisted, and nothing when no file content was
      fetched. */
  function AuthPrimaryLanguage(firstFile: string, haveContents: bool): (l: Option<string>)
    ensures !haveContents ==> l == None
    ensures haveContents ==> var ext := Lower(AfterLast(firstFile, '.'));
      l == Some(if ext in AuthLanguageMap then AuthLanguageMap[ext] else ext)
  {
    if !haveContents then None
    else
      var ext := Lower(AfterLast(firstFile, '.'));
      Some(if ext in AuthLanguageMap then AuthLanguageMap[ext] else ext)
  }

  /** The frameworks the authenticated code endpoint's extension table lists. */
  const AuthExtensionFrameworks: set<string> := {"pytest", "jest", "junit", "testing", "rspec"}

  /** The extension table of the authenticated code endpoint: a shorter
      table than the direct one; jest follows the primary language, the
      other listed frameworks take the direct endpoint's extension and any
      other framework `py`. */
  function AuthTestExtension(framework: string, primaryLanguage: Option<string>): (ext: string)
    ensures '/' !in ext && '.' !in ext
    ensures framework !in AuthExtensionFrameworks ==> ext == "py"
    ensures framework in AuthExtensionFrameworks && framework != "jest" ==> ext == DirectTestExtension(framework, "")
    ensures framework == "jest" ==> (ext == "js" <==> primaryLanguage == Some("javascript")) && (ext == "js" || ext == "ts")
  {
    if framework == "pytest" then "py"
    else if framework == "jest" then (if primaryLanguage == Some("javascript") then "js" else "ts")
    else if framework == "junit" then "java"
    else if framework == "testing" then "go"
    else if framework == "rspec" then "rb"
    else "py"
  }

  /** The same holds for the authenticated table. */
  lemma AuthExtensionFits(framework: string, primaryLanguage: Option<string>)
    requires framework in AuthExtensionFrameworks
    ensures Config.LanguageUses(AuthTestExtension(framework, primaryLanguage), framework)
  {
    var ext := AuthTestExtension(framework, primaryLanguage);
    if framework == "jest" {
      assert ext == "js" || ext == "ts";
      Config.JavaScriptUses();
      Config.TypeScriptUses();
    } else {
      DirectExtensionFits(framework, "");
    }
  }

  /** The file name the authenticated code endpoint suggests: always
      `test_{base}.{ext}`, where pytest, junit, testing and rspec take the
      same extension as on the direct endpoint, jest takes `js` for
      JavaScript and `ts` otherwise, and every other framework `py`. */
  function AuthSuggestedFilename(firstFile: string, framework: string, primaryLanguage: Option<string>): (name: string)
    ensures '/' !in name
    ensures var head := "test_" + Utils.BaseName(firstFile) + ".";
      framework in {"pytest", "junit", "testing", "rspec"} ==> name == head + DirectTestExtension(framework, "")
    ensures var head := "test_" + Utils.BaseName(firstFile) + ".";
      framework == "jest" ==> name == head + (if primaryLanguage == Some("javascript") then "js" else "ts")
    ensures var head := "test_" + Utils.BaseName(firstFile) + ".";
      framework !in {"pytest", "jest", "junit", "testing", "rspec"} ==> name == head + "py"
  {
    var head := "test_" + Utils.BaseName(firstFile) + ".";
    var ext := AuthTestExtension(framework, primaryLanguage);
    assert '/' !in head;
    assert (head + ext)[..|head|] == head;
    head + ext
  }

  /** For pytest the two endpoints and the shared helper agree on the name. */
  lemma PytestFilenamesAgree(firstFile: string, primaryLanguage: string, authLanguage: Option<string>)
    ensures DirectSuggestedFilename(firstFile, "pytest", primaryLanguage)
         == AuthSuggestedFilename(firstFile, "pytest", authLanguage)
         == Utils.GenerateTestFilename(firstFile, "pytest")
  {
  }

  /** For jest on a `.js` file both endpoints name the test `test_{base}.js`. */
  lemma JestJavaScriptFilenamesAgree(firstFile: string)
    requires Config.Extension(firstFile) == ".js"
    ensures DirectSuggestedFilename(firstFile, "jest", GithubDirect.DetectLanguageFromExtension(firstFile))
         == AuthSuggestedFilename(firstFile, "jest", AuthPrimaryLanguage(firstFile, true))
         == "test_" + Utils.BaseName(firstFile) + ".js"
  {
    JavaScriptBothWays(firstFile);
    DirectJestName(firstFile);
    AuthJestName(firstFile);
  }

  lemma DirectJestName(firstFile: string)
    ensures DirectSuggestedFilename(firstFile, "jest", "javascript") == "test_" + Utils.BaseName(firstFile) + ".js"
  {
    assert DirectTestExtension("jest", "javascript") == "js";
  }

  lemma AuthJestName(firstFile: string)
    ensures AuthSuggestedFilename(firstFile, "jest", Some("javascript")) == "test_" + Utils.BaseName(firstFile) + ".js"
  {
    assert AuthTestExtension("jest", Some("javascript")) == "js";
  }

  /** A `.js` file is JavaScript to both endpoints. */
  lemma JavaScriptBothWays(firstFile: string)
    requires Config.Extension(firstFile) == ".js"
    ensures GithubDirect.DetectLanguageFromExtension(firstFile) == "javascript"
    ensures AuthPrimaryLanguage(firstFile, true) == Some("javascript")
  {
    assert GithubDirect.DetectLanguageFromExtension(firstFile) == GithubDirect.LanguageMap[".js"];
    JavaScriptSuffix(firstFile);
  }

  /** The lower-cased text after the last dot of a `.js` file is `js`. */
  lemma JavaScriptSuffix(firstFile: string)
    requires Config.Extension(firstFile) == ".js"
    ensures Lower(AfterLast(firstFile, '.')) == "js"
  {
    assert '.' in firstFile;
    var ext := Lower(AfterLast(firstFile, '.'));
    assert "." + ext == Config.Extension(firstFile);
    assert ext == ("." + ext)[1..];
  }
}
