/**
  Direct processing of public GitHub repositories: repository URL parsing,
  the extension-based language and framework lookups, the code-file filter
  applied to a repository tree listing, and framework detection from the
  project's structure. The GitHub API calls themselves are not modelled: the
  tree listing they return is a parameter.
*/
module GithubDirect {
  import opened Outcome
  import opened Text
  import Config

  // ---------------------------------------------------------------------
  // Repository URL parsing
  // ---------------------------------------------------------------------

  /** `([^/]+)/([^/]+)` matched at the start of `s`: a non-empty run of
      non-slash characters, a slash, and a second non-empty run (each run as
      long as possible). */
  function OwnerRepo(s: string): (m: Option<(string, string)>)
    ensures m.Some? ==> m.value.0 != [] && m.value.1 != []
    ensures m.Some? ==> '/' !in m.value.0 && '/' !in m.value.1
    ensures m.Some? ==> StartsWith(s, m.value.0 + "/" + m.value.1)
    ensures m.Some? ==> var n := |m.value.0| + 1 + |m.value.1|; n == |s| || s[n] == '/'
    ensures m.Some? <==> exists i :: 0 < i < |s| - 1 && s[i] == '/' && s[i + 1] != '/' && '/' !in s[..i]
  {
    var owner := BeforeFirst(s, '/');
    TwoRuns(s);
    if owner != [] && |owner| < |s| then
      var rest := s[|owner| + 1..];
      var repo := BeforeFirst(rest, '/');
      if repo != [] then
        SecondRun(s, owner, repo);
        Some((owner, repo))
      else None
    else None
  }

  /** The owner, a slash and the run after it start `s`, and that run ends
      at the end of `s` or at a slash. */
  lemma SecondRun(s: string, owner: string, repo: string)
    requires owner == BeforeFirst(s, '/') && |owner| < |s|
    requires repo == BeforeFirst(s[|owner| + 1..], '/')
    ensures StartsWith(s, owner + "/" + repo)
    ensures var n := |owner| + 1 + |repo|; n == |s| || s[n] == '/'
  {
    var rest := s[|owner| + 1..];
    assert s[..|owner| + 1 + |repo|] == owner + "/" + repo;
    assert |repo| < |rest| ==> s[|owner| + 1 + |repo|] == rest[|repo|];
  }

  /** The first slash of `s` is at `i` when `s[i]` is a slash and none comes before. */
  lemma BeforeFirstAt(s: string, i: nat)
    requires i < |s| && s[i] == '/' && '/' !in s[..i]
    ensures BeforeFirst(s, '/') == s[..i]
  {
    var b := BeforeFirst(s, '/');
    assert forall k :: 0 <= k < |b| ==> s[k] == b[k] != '/';
    assert forall k :: 0 <= k < i ==> s[k] == s[..i][k] != '/';
  }

  /** Two non-empty runs separated by the first slash exist exactly when
      some slash, with none before it, is neither first nor last and is not
      followed by another slash. */
  lemma TwoRuns(s: string)
    ensures var owner := BeforeFirst(s, '/');
      (owner != [] && |owner| < |s| && BeforeFirst(s[|owner| + 1..], '/') != [])
      <==> exists i :: 0 < i < |s| - 1 && s[i] == '/' && s[i + 1] != '/' && '/' !in s[..i]
  {
    var owner := BeforeFirst(s, '/');
    if owner != [] && |owner| < |s| && BeforeFirst(s[|owner| + 1..], '/') != [] {
      var rest := s[|owner| + 1..];
      var repo := BeforeFirst(rest, '/');
      assert repo[0] == rest[0] == s[|owner| + 1];
      assert s[..|owner|] == owner;
    }
    if exists i :: 0 < i < |s| - 1 && s[i] == '/' && s[i + 1] != '/' && '/' !in s[..i] {
      var i :| 0 < i < |s| - 1 && s[i] == '/' && s[i + 1] != '/' && '/' !in s[..i];
      BeforeFirstAt(s, i);
      var rest := s[i + 1..];
      var repo := BeforeFirst(rest, '/');
      assert rest[0] != '/';
      assert repo != [];
    }
  }

  /** `^([^/]+)/([^/]+)$`: exactly one slash with text on both sides. */
  function WholeOwnerRepo(s: string): (m: Option<(string, string)>)
    ensures m.Some? ==> s == m.value.0 + "/" + m.value.1
    ensures m.Some? ==> m.value.0 != [] && m.value.1 != []
    ensures m.Some? ==> '/' !in m.value.0 && '/' !in m.value.1
  {
    var owner := BeforeFirst(s, '/');
    if owner != [] && |owner| < |s| then
      var repo := s[|owner| + 1..];
      if repo != [] && '/' !in repo then
        assert s == owner + "/" + repo;
        Some((owner, repo))
      else None
    else None
  }

  /** The URL with surrounding whitespace and then one trailing `.git` removed. */
  function CleanRepoUrl(url: string): (u: string)
    ensures |u| <= |url|
    ensures !EndsWith(Strip(url), ".git") ==> u == Strip(url)
    ensures EndsWith(Strip(url), ".git") ==> u + ".git" == Strip(url)
  {
    var s := Strip(url);
    if EndsWith(s, ".git") then
      SuffixRejoins(s, ".git");
      s[..|s| - 4]
    else s
  }

  /** Cutting a suffix off and putting it back gives the string back. */
  lemma SuffixRejoins(s: string, suffix: string)
    requires EndsWith(s, suffix)
    ensures s[..|s| - |suffix|] + suffix == s
  {
  }

  function InvalidUrlMessage(cleaned: string): string {
    "Invalid GitHub repository URL format: " + cleaned + ". Use format: owner/repo or https://github.com/owner/repo"
  }

  /** `parse_github_url`: the owner and repository name, each without slashes
      and stripped, from `http(s)://github.com/o/r…`, `github.com/o/r…` or
      exactly `o/r` once the URL is cleaned; any other input is a 400 error. */
  function ParseGithubUrl(url: string): (r: Result<(string, string)>)
    ensures r.Ok? ==> '/' !in r.value.0 && '/' !in r.value.1
    ensures r.Ok? ==> Stripped(r.value.0) && Stripped(r.value.1)
    ensures r.Err? ==> r.status == 400
  {
    MatchRepoUrl(CleanRepoUrl(url))
  }

  /** The patterns tried in order on the cleaned URL `u`: it is rejected
      exactly when none of the four forms matches. */
  function MatchRepoUrl(u: string): (r: Result<(string, string)>)
    ensures r.Ok? ==> '/' !in r.value.0 && '/' !in r.value.1
    ensures r.Ok? ==> Stripped(r.value.0) && Stripped(r.value.1)
    ensures r.Err? ==> r == Err(400, InvalidUrlMessage(u))
    ensures r.Err? <==>
      (!StartsWith(u, "https://github.com/") || OwnerRepo(u[19..]).None?) &&
      (!StartsWith(u, "http://github.com/") || OwnerRepo(u[18..]).None?) &&
      (!StartsWith(u, "github.com/") || OwnerRepo(u[11..]).None?) &&
      WholeOwnerRepo(u).None?
    ensures StartsWith(u, "https://github.com/") && OwnerRepo(u[19..]).Some? ==>
      r == Ok(StripBoth(OwnerRepo(u[19..]).value))
    ensures StartsWith(u, "http://github.com/") && OwnerRepo(u[18..]).Some? ==>
      r == Ok(StripBoth(OwnerRepo(u[18..]).value))
    ensures StartsWith(u, "github.com/") && OwnerRepo(u[11..]).Some? ==>
      r == Ok(StripBoth(OwnerRepo(u[11..]).value))
    ensures ((!StartsWith(u, "https://github.com/") || OwnerRepo(u[19..]).None?) &&
             (!StartsWith(u, "http://github.com/") || OwnerRepo(u[18..]).None?) &&
             (!StartsWith(u, "github.com/") || OwnerRepo(u[11..]).None?) &&
             WholeOwnerRepo(u).Some?)
      ==> r == Ok(StripBoth(WholeOwnerRepo(u).value))
  {
    PrefixesExclusive(u);
    var https := if StartsWith(u, "https://github.com/") then OwnerRepo(u[19..]) else None;
    var http := if StartsWith(u, "http://github.com/") then OwnerRepo(u[18..]) else None;
    var bare := if StartsWith(u, "github.com/") then OwnerRepo(u[11..]) else None;
    var m :=
      if https.Some? then https
      else if http.Some? then http
      else if bare.Some? then bare
      else WholeOwnerRepo(u);
    match m
    case None => Err(400, InvalidUrlMessage(u))
    case Some((owner, repo)) =>
      StripKeepsOut(owner, '/');
      StripKeepsOut(repo, '/');
      Ok(StripBoth((owner, repo)))
  }

  /** Both names with surrounding whitespace removed. */
  function StripBoth(m: (string, string)): (string, string) {
    (Strip(m.0), Strip(m.1))
  }

  /** A URL starts with at most one of the three host prefixes. */
  lemma PrefixesExclusive(u: string)
    ensures StartsWith(u, "http://github.com/") ==> !StartsWith(u, "https://github.com/")
    ensures StartsWith(u, "github.com/") ==>
      !StartsWith(u, "https://github.com/") && !StartsWith(u, "http://github.com/")
  {
    if StartsWith(u, "http://github.com/") {
      assert u[4] == ':';
      NotPrefixAt(u, "https://github.com/", 4);
    }
    if StartsWith(u, "github.com/") {
      assert u[0] == 'g';
      NotPrefixAt(u, "https://github.com/", 0);
      NotPrefixAt(u, "http://github.com/", 0);
    }
  }

  /** Stripping cannot introduce a character. */
  lemma StripKeepsOut(s: string, c: char)
    requires c !in s
    ensures c !in Strip(s)
  {
    var l := LStrip(s);
    SliceKeepsOut(s, |s| - |l|, |s|, c);
    var r := RStrip(l);
    SliceKeepsOut(l, 0, |r|, c);
  }

  lemma SliceKeepsOut(s: string, i: nat, j: nat, c: char)
    requires i <= j <= |s| && c !in s
    ensures c !in s[i..j]
  {
    assert forall k :: 0 <= k < j - i ==> s[i..j][k] == s[i + k];
  }

  /** The one slash of `o/r` sits right after the owner. */
  lemma ShortFormShape(owner: string, repo: string)
    requires owner != [] && '/' !in owner && '/' !in repo
    ensures var s := owner + "/" + repo;
      s[|owner|] == '/' && (forall i :: 0 <= i < |s| && i != |owner| ==> s[i] != '/')
      && BeforeFirst(s, '/') == owner && s[|owner| + 1..] == repo
  {
    var s := owner + "/" + repo;
    assert forall i :: 0 <= i < |s| && i != |owner| ==> s[i] != '/';
    var b := BeforeFirst(s, '/');
    assert |b| <= |owner| by { assert |b| < |s| ==> s[|b|] == '/'; }
    assert |b| >= |owner| by { assert forall i :: 0 <= i < |b| ==> b[i] == s[i] && s[i] != '/'; }
    assert b == s[..|b|];
  }

  /** `o/r` is already clean when `r` has no trailing `.git`. */
  lemma ShortFormClean(owner: string, repo: string)
    requires owner != [] && repo != [] && '/' !in owner && '/' !in repo
    requires Stripped(owner) && Stripped(repo) && !EndsWith(repo, ".git")
    ensures CleanRepoUrl(owner + "/" + repo) == owner + "/" + repo
  {
    ShortFormStripped(owner, repo);
    ShortFormNoGit(owner, repo);
  }

  lemma ShortFormStripped(owner: string, repo: string)
    requires owner != [] && repo != [] && Stripped(owner) && Stripped(repo)
    ensures Stripped(owner + "/" + repo)
  {
    var s := owner + "/" + repo;
    assert s[0] == owner[0];
    assert s[|s| - 1] == repo[|repo| - 1];
  }

  /** `o/r` ends in `.git` only when `r` does. */
  lemma ShortFormNoGit(owner: string, repo: string)
    requires owner != [] && '/' !in repo && !EndsWith(repo, ".git")
    ensures !EndsWith(owner + "/" + repo, ".git")
  {
    var s := owner + "/" + repo;
    if |repo| >= 4 {
      assert s[|s| - 4..] == repo[|repo| - 4..];
    } else if |s| >= 4 {
      assert s[|owner|] == '/';
      assert s[|s| - 4..][|owner| - (|s| - 4)] == '/';
    }
  }

  /** `o/r` matches none of the longer URL forms. */
  lemma ShortFormNotLong(owner: string, repo: string)
    requires owner != [] && '/' !in owner && '/' !in repo
    ensures var s := owner + "/" + repo;
      !StartsWith(s, "https://github.com/") && !StartsWith(s, "http://github.com/")
      && (!StartsWith(s, "github.com/") || OwnerRepo(s[11..]).None?)
  {
    ShortFormShape(owner, repo);
    ShortFormNotHttps(owner, repo);
    ShortFormNotHttp(owner, repo);
    ShortFormNotHost(owner, repo);
  }

  lemma ShortFormNotHttps(owner: string, repo: string)
    requires owner != [] && '/' !in owner && '/' !in repo
    ensures !StartsWith(owner + "/" + repo, "https://github.com/")
  {
    var s := owner + "/" + repo;
    ShortFormShape(owner, repo);
    var i := if |owner| == 6 then 7 else 6;
    assert i >= |s| || s[i] != '/';
    NotPrefixAt(s, "https://github.com/", i);
  }

  lemma ShortFormNotHttp(owner: string, repo: string)
    requires owner != [] && '/' !in owner && '/' !in repo
    ensures !StartsWith(owner + "/" + repo, "http://github.com/")
  {
    var s := owner + "/" + repo;
    ShortFormShape(owner, repo);
    var j := if |owner| == 5 then 6 else 5;
    assert j >= |s| || s[j] != '/';
    NotPrefixAt(s, "http://github.com/", j);
  }

  lemma ShortFormNotHost(owner: string, repo: string)
    requires owner != [] && '/' !in owner && '/' !in repo
    ensures var s := owner + "/" + repo;
      !StartsWith(s, "github.com/") || OwnerRepo(s[11..]).None?
  {
    var s := owner + "/" + repo;
    ShortFormShape(owner, repo);
    if |owner| != 10 {
      assert 10 >= |s| || s[10] != '/';
      NotPrefixAt(s, "github.com/", 10);
    } else {
      assert s[11..] == repo;
      assert BeforeFirst(repo, '/') == repo;
    }
  }

  /** Owner and repository names are recovered from the short form `o/r`. */
  lemma ParseShortForm(owner: string, repo: string)
    requires owner != [] && repo != []
    requires '/' !in owner && '/' !in repo
    requires Stripped(owner) && Stripped(repo)
    requires !EndsWith(repo, ".git")
    ensures ParseGithubUrl(owner + "/" + repo) == Ok((owner, repo))
  {
    ShortFormClean(owner, repo);
    MatchShortForm(owner, repo);
  }

  lemma MatchShortForm(owner: string, repo: string)
    requires owner != [] && repo != []
    requires '/' !in owner && '/' !in repo
    requires Stripped(owner) && Stripped(repo)
    ensures MatchRepoUrl(owner + "/" + repo) == Ok((owner, repo))
  {
    ShortFormNotLong(owner, repo);
    WholeShortForm(owner, repo);
  }

  lemma WholeShortForm(owner: string, repo: string)
    requires owner != [] && repo != [] && '/' !in owner && '/' !in repo
    ensures WholeOwnerRepo(owner + "/" + repo) == Some((owner, repo))
  {
    ShortFormShape(owner, repo);
  }

  /** The owner and name come back from each of the three host forms
      `https://github.com/o/r`, `http://github.com/o/r` and `github.com/o/r`. */
  lemma ParseHostForm(host: string, owner: string, repo: string)
    requires host == "https://github.com/" || host == "http://github.com/" || host == "github.com/"
    requires owner != [] && repo != []
    requires '/' !in owner && '/' !in repo
    requires Stripped(owner) && Stripped(repo)
    requires !EndsWith(repo, ".git")
    ensures ParseGithubUrl(host + owner + "/" + repo) == Ok((owner, repo))
  {
    assert host[0] in "hg" && host[|host| - 1] == '/';
    HostFormClean(host, owner, repo);
    MatchHostForm(host, owner, repo);
  }

  lemma MatchHostForm(host: string, owner: string, repo: string)
    requires host == "https://github.com/" || host == "http://github.com/" || host == "github.com/"
    requires owner != [] && repo != []
    requires '/' !in owner && '/' !in repo
    requires Stripped(owner) && Stripped(repo)
    ensures MatchRepoUrl(host + owner + "/" + repo) == Ok((owner, repo))
  {
    var t := owner + "/" + repo;
    assert host + owner + "/" + repo == host + t;
    OwnerRepoShortForm(owner, repo);
    PrefixThen(host, t);
  }

  lemma PrefixThen(host: string, t: string)
    ensures StartsWith(host + t, host) && (host + t)[|host|..] == t
  {
    assert (host + t)[..|host|] == host;
  }

  /** A URL made of a host part ending in a slash, `o` and `r` is already
      clean when `r` has no trailing `.git`. */
  lemma HostFormClean(host: string, owner: string, repo: string)
    requires host != [] && !IsSpace(host[0]) && host[|host| - 1] == '/'
    requires owner != [] && repo != [] && '/' !in repo
    requires Stripped(repo) && !EndsWith(repo, ".git")
    ensures CleanRepoUrl(host + owner + "/" + repo) == host + owner + "/" + repo
  {
    var t := owner + "/" + repo;
    assert host + owner + "/" + repo == host + t;
    ShortFormNoGit(owner, repo);
    HostPartStripped(host, t);
    HostPartNoGit(host, t);
  }

  lemma HostPartStripped(host: string, t: string)
    requires host != [] && !IsSpace(host[0]) && t != [] && !IsSpace(t[|t| - 1])
    ensures Stripped(host + t)
  {
    var s := host + t;
    assert s[0] == host[0] && s[|s| - 1] == t[|t| - 1];
  }

  /** Text after a slash ends in `.git` only when the text itself does, as
      long as it has at least three characters. */
  lemma HostPartNoGit(host: string, t: string)
    requires host != [] && host[|host| - 1] == '/' && |t| >= 3 && !EndsWith(t, ".git")
    ensures !EndsWith(host + t, ".git")
  {
    var s := host + t;
    if |t| >= 4 {
      assert s[|s| - 4..] == t[|t| - 4..];
    } else {
      assert s[|s| - 4..][0] == s[|host| - 1] == '/';
    }
  }

  /** `o/r` splits into `o` and `r` at its one slash. */
  lemma OwnerRepoShortForm(owner: string, repo: string)
    requires owner != [] && repo != [] && '/' !in owner && '/' !in repo
    ensures OwnerRepo(owner + "/" + repo) == Some((owner, repo))
  {
    ShortFormShape(owner, repo);
    assert BeforeFirst(repo, '/') == repo;
  }

  /** A string that differs from `p` at a position below `|p|` does not start with `p`. */
  lemma NotPrefixAt(s: string, p: string, i: nat)
    requires i < |p| && (i >= |s| || s[i] != p[i])
    ensures !StartsWith(s, p)
  {
    if |p| <= |s| {
      assert s[..|p|][i] == s[i];
    }
  }

  /** A trailing `.git` on a URL makes no difference. */
  lemma GitSuffixIgnored(u: string)
    requires Stripped(u) && u != [] && !EndsWith(u, ".git")
    ensures ParseGithubUrl(u + ".git") == ParseGithubUrl(u)
  {
    CleanDropsGit(u);
  }

  lemma CleanDropsGit(u: string)
    requires Stripped(u) && u != [] && !EndsWith(u, ".git")
    ensures CleanRepoUrl(u + ".git") == CleanRepoUrl(u) == u
  {
    var s := u + ".git";
    assert Stripped(s) by {
      assert s[0] == u[0];
    }
    assert EndsWith(s, ".git");
    assert s[..|s| - 4] == u;
  }

  // ---------------------------------------------------------------------
  // Language and framework lookups
  // ---------------------------------------------------------------------

  const LanguageMap: map<string, string> := map[
    ".py" := "python", ".js" := "javascript", ".jsx" := "javascript",
    ".ts" := "typescript", ".tsx" := "typescript", ".java" := "java",
    ".go" := "go", ".rb" := "ruby", ".php" := "php", ".cs" := "csharp",
    ".swift" := "swift", ".cpp" := "cpp", ".c" := "c", ".h" := "c"
  ]

  const FrameworkMap: map<string, string> := map[
    "python" := "pytest", "javascript" := "jest", "typescript" := "jest",
    "java" := "junit", "go" := "testing", "ruby" := "rspec", "php" := "phpunit",
    "csharp" := "nunit", "swift" := "xctest", "cpp" := "gtest", "c" := "unity"
  ]

  /** `detect_language_from_extension`: the language of a path's extension,
      `unknown` for an unlisted extension or a path without a dot. */
  function DetectLanguageFromExtension(path: string): (language: string)
    ensures language == "unknown" <==> Config.Extension(path) !in LanguageMap
    ensures '.' !in path ==> language == "unknown"
  {
    var ext := Config.Extension(path);
    if ext in LanguageMap then LanguageMap[ext] else "unknown"
  }

  /** `detect_framework_from_language`: a total lookup defaulting to
      `generic`, so the tag is never empty. */
  function DetectFrameworkFromLanguage(language: string): (framework: string)
    ensures framework != ""
    ensures language !in FrameworkMap ==> framework == "generic"
  {
    if language in FrameworkMap then FrameworkMap[language] else "generic"
  }

  /** The lookups here agree with the configuration table: same language and,
      through the language, the same default framework, for every path. */
  lemma LookupsAgreeWithConfig(path: string)
    ensures DetectLanguageFromExtension(path) == Config.GetLanguageConfig(path).language
    ensures DetectFrameworkFromLanguage(DetectLanguageFromExtension(path)) == Config.GetLanguageConfig(path).framework
  {
    var ext := Config.Extension(path);
    TablesAgree(ext);
    if ext in Config.SupportedExtensions {
      assert Config.GetLanguageConfig(path).language == Config.SupportedExtensions[ext].language;
    }
  }

  /** The two extension tables list the same extensions, with the same
      language and default framework for each. */
  lemma TablesAgree(ext: string)
    ensures ext in LanguageMap <==> ext in Config.SupportedExtensions
    ensures ext in LanguageMap ==> LanguageMap[ext] == Config.SupportedExtensions[ext].language
    ensures ext in LanguageMap ==> LanguageMap[ext] in FrameworkMap
    ensures ext in LanguageMap ==> FrameworkMap[LanguageMap[ext]] == Config.SupportedExtensions[ext].defaultFramework
  {
    assert LanguageMap.Keys == Config.SupportedExtensions.Keys;
    if ext in LanguageMap {
      EntryAgrees(ext);
    }
  }

  lemma EntryAgrees(ext: string)
    requires ext in LanguageMap
    ensures ext in Config.SupportedExtensions
    ensures LanguageMap[ext] == Config.SupportedExtensions[ext].language
    ensures LanguageMap[ext] in FrameworkMap
    ensures FrameworkMap[LanguageMap[ext]] == Config.SupportedExtensions[ext].defaultFramework
  {
  }

  // ---------------------------------------------------------------------
  // The code-file filter over a tree listing
  // ---------------------------------------------------------------------

  /** An entry of a repository tree listing. */
  datatype TreeItem = TreeItem(path: string, itemType: string, size: Option<int>, sha: string)

  /** A file record handed back to the client. */
  datatype CodeFile = CodeFile(path: string, name: string, size: Option<int>, sha: string, downloadUrl: string)

  /** The outcome of the tree request: its status code, body text and entries. */
  datatype TreeResponse = TreeResponse(status: int, body: string, items: seq<TreeItem>)

  const CodeExtensions: set<string> :=
    {".py", ".js", ".jsx", ".ts", ".tsx", ".java", ".go", ".rb", ".php", ".cs", ".swift", ".cpp", ".c", ".h"}

  const FilterExcludes: seq<string> := [
    "test", "spec", "__pycache__", "node_modules", ".git", "dist",
    "build", "coverage", ".pytest_cache", "target", "bin", "obj"
  ]

  /** The filter keeps a blob with a code extension whose lower-cased path
      contains none of the excluded substrings. */
  predicate IsCodeBlob(item: TreeItem) {
    item.itemType == "blob"
    && Config.Extension(item.path) in CodeExtensions
    && !(exists k :: 0 <= k < |FilterExcludes| && Contains(Lower(item.path), FilterExcludes[k]))
  }

  function CodeFileOf(owner: string, repo: string, item: TreeItem): CodeFile {
    CodeFile(item.path, AfterLast(item.path, '/'), item.size, item.sha,
      "https://api.github.com/repos/" + owner + "/" + repo + "/contents/" + item.path)
  }

  /** The records of the kept entries, in listing order. */
  function CodeFilesOf(owner: string, repo: string, items: seq<TreeItem>): seq<CodeFile>
  {
    if items == [] then []
    else
      var last := items[|items| - 1];
      CodeFilesOf(owner, repo, items[..|items| - 1])
        + (if IsCodeBlob(last) then [CodeFileOf(owner, repo, last)] else [])
  }

  /** Exactly the kept entries appear in the result, each as its record. */
  lemma {:induction false} CodeFilesMembers(owner: string, repo: string, items: seq<TreeItem>)
    ensures |CodeFilesOf(owner, repo, items)| <= |items|
    ensures forall f :: f in CodeFilesOf(owner, repo, items) <==>
      exists item :: item in items && IsCodeBlob(item) && f == CodeFileOf(owner, repo, item)
  {
    if items != [] {
      var init := items[..|items| - 1];
      CodeFilesMembers(owner, repo, init);
      assert items == init + [items[|items| - 1]];
    }
  }

  /** A path that mentions `test`, `spec` or `bin` in any case is never kept. */
  lemma ExcludedWordsDropped(owner: string, repo: string, items: seq<TreeItem>, f: CodeFile)
    requires f in CodeFilesOf(owner, repo, items)
    ensures !Contains(Lower(f.path), "test")
    ensures !Contains(Lower(f.path), "spec")
    ensures !Contains(Lower(f.path), "bin")
  {
    CodeFilesMembers(owner, repo, items);
    var item :| item in items && IsCodeBlob(item) && f == CodeFileOf(owner, repo, item);
    NoExcludedWord(item.path);
  }

  lemma NoExcludedWord(path: string)
    requires !(exists k :: 0 <= k < |FilterExcludes| && Contains(Lower(path), FilterExcludes[k]))
    ensures !Contains(Lower(path), "test") && !Contains(Lower(path), "spec") && !Contains(Lower(path), "bin")
  {
    assert FilterExcludes[0] == "test" && FilterExcludes[1] == "spec" && FilterExcludes[10] == "bin";
  }

  /** The filter loop of `fetch_github_repo_files`, after the status checks. */
  method FetchGithubRepoFiles(owner: string, repo: string, response: TreeResponse)
    returns (r: Result<seq<CodeFile>>)
    ensures response.status == 404 ==> r == Err(404, "Repository " + owner + "/" + repo + " not found or is private")
    ensures response.status == 403 ==> r == Err(403, "GitHub API rate limit exceeded")
    ensures response.status !in {200, 403, 404} ==> r == Err(response.status, "GitHub API error: " + response.body)
    ensures response.status == 200 ==> r == Ok(CodeFilesOf(owner, repo, response.items))
  {
    if response.status == 404 {
      return Err(404, "Repository " + owner + "/" + repo + " not found or is private");
    } else if response.status == 403 {
      return Err(403, "GitHub API rate limit exceeded");
    } else if response.status != 200 {
      return Err(response.status, "GitHub API error: " + response.body);
    }
    var items := response.items;
    var codeFiles: seq<CodeFile> := [];
    for k := 0 to |items|
      invariant codeFiles == CodeFilesOf(owner, repo, items[..k])
    {
      assert items[..k + 1][..k] == items[..k];
      if IsCodeBlob(items[k]) {
        codeFiles := codeFiles + [CodeFileOf(owner, repo, items[k])];
      }
    }
    assert items[..|items|] == items;
    return Ok(codeFiles);
  }

  // ---------------------------------------------------------------------
  // Framework detection from project structure
  // ---------------------------------------------------------------------

  /** The languages whose files are counted. */
  datatype Lang = Python | JavaScript | TypeScript | Java | CSharp | Go | Ruby | Php

  /** The framework indicator lists, in the order their tests are tried. */
  datatype Indicator =
    | Cypress | Playwright | Selenium | Jest | Vitest | Pytest
    | Unittest | Junit | Nunit | Rspec | Mocha | Phpunit

  const AllLangs: set<Lang> := {Python, JavaScript, TypeScript, Java, CSharp, Go, Ruby, Php}

  const AllIndicators: set<Indicator> :=
    {Cypress, Playwright, Selenium, Jest, Vitest, Pytest, Unittest, Junit, Nunit, Rspec, Mocha, Phpunit}

  lemma KeySetsComplete(l: Lang, ind: Indicator)
    ensures l in AllLangs && ind in AllIndicators
  {
  }

  /** Which counter a path increments, if any. */
  function StatOf(path: string): Option<Lang> {
    var ext := Config.Extension(path);
    if ext == ".py" then Some(Python)
    else if ext == ".js" || ext == ".jsx" then Some(JavaScript)
    else if ext == ".ts" || ext == ".tsx" then Some(TypeScript)
    else if ext == ".java" then Some(Java)
    else if ext == ".cs" then Some(CSharp)
    else if ext == ".go" then Some(Go)
    else if ext == ".rb" then Some(Ruby)
    else if ext == ".php" then Some(Php)
    else None
  }

  /** The one indicator list a path is appended to: the first test that
      matches its lower-cased form. */
  function IndicatorOf(path: string): Option<Indicator> {
    var p := Lower(path);
    if Contains(p, "cypress") || Contains(p, "cypress.config") then Some(Cypress)
    else if Contains(p, "playwright") || Contains(p, "playwright.config") then Some(Playwright)
    else if Contains(p, "selenium") then Some(Selenium)
    else if Contains(p, "jest.config") || Contains(p, "jest.setup") then Some(Jest)
    else if Contains(p, "vitest.config") then Some(Vitest)
    else if Contains(p, "conftest.py") || Contains(p, "pytest.ini") then Some(Pytest)
    else if Contains(p, "unittest") && Config.Extension(path) == ".py" then Some(Unittest)
    else if Contains(p, "pom.xml") || Contains(p, "build.gradle") || EndsWith(p, "test.java") then Some(Junit)
    else if EndsWith(p, ".csproj") || Contains(p, "nunit") then Some(Nunit)
    else if Contains(p, "spec.rb") || Contains(p, "rspec") then Some(Rspec)
    else if Contains(p, "mocha") then Some(Mocha)
    else if Contains(p, "phpunit") then Some(Phpunit)
    else None
  }

  /** How many paths `classify` sends to counter `k`. */
  function Tally<K(==)>(paths: seq<string>, classify: string -> Option<K>, k: K): nat {
    if paths == [] then 0
    else Tally(paths[..|paths| - 1], classify, k) + (if classify(paths[|paths| - 1]) == Some(k) then 1 else 0)
  }

  /** The paths `classify` appends to list `k`, in order. */
  function Collect<K(==)>(paths: seq<string>, classify: string -> Option<K>, k: K): seq<string> {
    if paths == [] then []
    else
      Collect(paths[..|paths| - 1], classify, k)
        + (if classify(paths[|paths| - 1]) == Some(k) then [paths[|paths| - 1]] else [])
  }

  /** A path is in list `k` exactly when it is listed and `classify` sends it
      there; so no path is in two lists. */
  lemma {:induction false} CollectMembers<K>(paths: seq<string>, classify: string -> Option<K>, k: K)
    ensures forall p :: p in Collect(paths, classify, k) <==> p in paths && classify(p) == Some(k)
  {
    if paths != [] {
      var init := paths[..|paths| - 1];
      CollectMembers(init, classify, k);
      assert paths == init + [paths[|paths| - 1]];
    }
  }

  lemma IndicatorListsDisjoint(paths: seq<string>, a: Indicator, b: Indicator, p: string)
    requires a != b && p in Collect(paths, IndicatorOf, a)
    ensures p !in Collect(paths, IndicatorOf, b)
  {
    CollectMembers(paths, IndicatorOf, a);
    CollectMembers(paths, IndicatorOf, b);
  }

  /** The counters after scanning `paths`. */
  function StatsOf(paths: seq<string>): (stats: map<Lang, nat>)
    ensures stats.Keys == AllLangs
    ensures forall l :: l in AllLangs ==> stats[l] == Tally(paths, StatOf, l)
  {
    map l | l in AllLangs :: Tally(paths, StatOf, l)
  }

  /** The indicator lists after scanning `paths`. */
  function IndicatorsOf(paths: seq<string>): (indicators: map<Indicator, seq<string>>)
    ensures indicators.Keys == AllIndicators
    ensures forall ind :: ind in AllIndicators ==> indicators[ind] == Collect(paths, IndicatorOf, ind)
  {
    map ind | ind in AllIndicators :: Collect(paths, IndicatorOf, ind)
  }

  /** `stats` holds, for each counter in `langs`, the tally over `paths`. */
  predicate Counted<L(!new)>(stats: map<L, nat>, paths: seq<string>, stat: string -> Option<L>, langs: set<L>) {
    stats.Keys == langs && forall l :: l in langs ==> stats[l] == Tally(paths, stat, l)
  }

  /** `indicators` holds, for each list in `inds`, the paths collected from `paths`. */
  predicate Listed<I(!new)>(
    indicators: map<I, seq<string>>, paths: seq<string>, indicator: string -> Option<I>, inds: set<I>)
  {
    indicators.Keys == inds && forall i :: i in inds ==> indicators[i] == Collect(paths, indicator, i)
  }

  /** The counting and indicator loop over the listed paths: each path bumps
      the counter `stat` names and is appended to the list `indicator` names.
      Every counter and list starts empty. */
  method ScanProject<L(==,!new), I(==,!new)>(
    paths: seq<string>, stat: string -> Option<L>, indicator: string -> Option<I>, langs: set<L>, inds: set<I>)
    returns (stats: map<L, nat>, indicators: map<I, seq<string>>)
    requires forall p :: stat(p).Some? ==> stat(p).value in langs
    requires forall p :: indicator(p).Some? ==> indicator(p).value in inds
    ensures stats == map l | l in langs :: Tally(paths, stat, l)
    ensures indicators == map i | i in inds :: Collect(paths, indicator, i)
  {
    stats := map l | l in langs :: 0;
    indicators := map i | i in inds :: [];
    for k := 0 to |paths|
      invariant Counted(stats, paths[..k], stat, langs)
      invariant Listed(indicators, paths[..k], indicator, inds)
    {
      var path := paths[k];
      match stat(path) {
        case Some(l) =>
          CountStep(stats, paths, stat, langs, k);
          stats := stats[l := stats[l] + 1];
        case None =>
          CountStep(stats, paths, stat, langs, k);
      }
      match indicator(path) {
        case Some(i) =>
          ListStep(indicators, paths, indicator, inds, k);
          indicators := indicators[i := indicators[i] + [path]];
        case None =>
          ListStep(indicators, paths, indicator, inds, k);
      }
    }
    assert paths[..|paths|] == paths;
  }

  /** One more path bumps only the counter it is classified under. */
  lemma CountStep<L(!new)>(stats: map<L, nat>, paths: seq<string>, stat: string -> Option<L>, langs: set<L>, k: nat)
    requires k < |paths| && Counted(stats, paths[..k], stat, langs)
    requires stat(paths[k]).Some? ==> stat(paths[k]).value in langs
    ensures stat(paths[k]).None? ==> Counted(stats, paths[..k + 1], stat, langs)
    ensures stat(paths[k]).Some? ==> (stat(paths[k]).value in stats &&
      Counted(stats[stat(paths[k]).value := stats[stat(paths[k]).value] + 1], paths[..k + 1], stat, langs))
  {
    assert paths[..k + 1][..k] == paths[..k];
  }

  /** One more path is appended only to the list it is classified under. */
  lemma ListStep<I(!new)>(
    indicators: map<I, seq<string>>, paths: seq<string>, indicator: string -> Option<I>, inds: set<I>, k: nat)
    requires k < |paths| && Listed(indicators, paths[..k], indicator, inds)
    requires indicator(paths[k]).Some? ==> indicator(paths[k]).value in inds
    ensures indicator(paths[k]).None? ==> Listed(indicators, paths[..k + 1], indicator, inds)
    ensures indicator(paths[k]).Some? ==> (indicator(paths[k]).value in indicators &&
      Listed(indicators[indicator(paths[k]).value := indicators[indicator(paths[k]).value] + [paths[k]]],
        paths[..k + 1], indicator, inds))
  {
    assert paths[..k + 1][..k] == paths[..k];
  }

  /** The scan with the project's own classifications yields `StatsOf` and
      `IndicatorsOf`. */
  method ScanProjectPaths(paths: seq<string>) returns (stats: map<Lang, nat>, indicators: map<Indicator, seq<string>>)
    ensures stats == StatsOf(paths)
    ensures indicators == IndicatorsOf(paths)
  {
    forall p: string | StatOf(p).Some?
      ensures StatOf(p).value in AllLangs
    {
      KeySetsComplete(StatOf(p).value, Cypress);
    }
    forall p: string | IndicatorOf(p).Some?
      ensures IndicatorOf(p).value in AllIndicators
    {
      KeySetsComplete(Python, IndicatorOf(p).value);
    }
    stats, indicators := ScanProject(paths, StatOf, IndicatorOf, AllLangs, AllIndicators);
  }

  /** None of the listed indicators has been seen. */
  predicate NoneOf(indicators: map<Indicator, seq<string>>, inds: set<Indicator>) {
    forall ind :: ind in inds && ind in indicators ==> indicators[ind] == []
  }

  /** The precedence chain applied once the project has been scanned. */
  function DecideFramework(stats: map<Lang, nat>, indicators: map<Indicator, seq<string>>, target: string): (framework: string)
    requires stats.Keys == AllLangs && indicators.Keys == AllIndicators
    ensures framework != ""
    ensures framework == "cypress" <==> indicators[Cypress] != []
    ensures indicators[Cypress] == [] && indicators[Playwright] != [] ==> framework == "playwright"
    ensures framework == "selenium" ==> target == "python" || stats[Python] > 0
    ensures target == "python" && NoneOf(indicators, {Cypress, Playwright, Selenium, Pytest, Unittest})
      ==> framework == "pytest"
    ensures (target == "javascript" || target == "typescript") && stats[Python] <= stats[JavaScript] + stats[TypeScript]
      && NoneOf(indicators, {Cypress, Playwright, Selenium, Jest, Vitest, Mocha})
      ==> framework == "jest"
  {
    if indicators[Cypress] != [] then "cypress"
    else if indicators[Playwright] != [] then "playwright"
    else if indicators[Selenium] != [] && (stats[Python] > 0 || target == "python") then "selenium"
    else if target == "python" || stats[Python] > stats[JavaScript] + stats[TypeScript] then
      if indicators[Pytest] != [] then "pytest"
      else if indicators[Unittest] != [] then "unittest"
      else if indicators[Selenium] != [] then "selenium"
      else "pytest"
    else if target == "javascript" || target == "typescript" || stats[JavaScript] + stats[TypeScript] > stats[Python] then
      if indicators[Jest] != [] then "jest"
      else if indicators[Vitest] != [] then "vitest"
      else if indicators[Mocha] != [] then "mocha"
      else if indicators[Cypress] != [] then "cypress"
      else if indicators[Playwright] != [] then "playwright"
      else "jest"
    else if target == "java" || stats[Java] > 0 then "junit"
    else if target == "csharp" || stats[CSharp] > 0 then "nunit"
    else if target == "go" || stats[Go] > 0 then "testing"
    else if target == "ruby" || stats[Ruby] > 0 then
      if indicators[Rspec] != [] then "rspec" else "rspec"
    else if target == "php" || stats[Php] > 0 then "phpunit"
    else DetectFrameworkFromLanguage(target)
  }

  /** The paths of the blob entries of a listing. */
  function BlobPaths(items: seq<TreeItem>): (paths: seq<string>)
    ensures |paths| <= |items|
    ensures forall p :: p in paths <==> exists item :: item in items && item.itemType == "blob" && item.path == p
  {
    if items == [] then []
    else
      (if items[0].itemType == "blob" then [items[0].path] else []) + BlobPaths(items[1..])
  }

  /** What the detection answers for a target file and a listing; `None`
      stands for a listing that could not be had (a non-200 response or any
      exception), which falls back to the extension-based lookups. */
  function FrameworkByStructure(filePath: string, listing: Option<seq<TreeItem>>): (framework: string)
    ensures framework != ""
  {
    match listing
    case None => DetectFrameworkFromLanguage(DetectLanguageFromExtension(filePath))
    case Some(items) =>
      var paths := BlobPaths(items);
      DecideFramework(StatsOf(paths), IndicatorsOf(paths), DetectLanguageFromExtension(filePath))
  }

  /** `detect_framework_from_project_structure` with the listing as a parameter. */
  method DetectFrameworkFromProjectStructure(filePath: string, listing: Option<seq<TreeItem>>)
    returns (framework: string)
    ensures framework == FrameworkByStructure(filePath, listing)
    ensures framework != ""
  {
    match listing
    case None =>
      var language := DetectLanguageFromExtension(filePath);
      return DetectFrameworkFromLanguage(language);
    case Some(items) =>
      var paths := BlobPaths(items);
      var stats, indicators := ScanProjectPaths(paths);
      var target := DetectLanguageFromExtension(filePath);
      framework := DecideFramework(stats, indicators, target);
  }

  /** Some listed path feeds the indicator list of `ind`. */
  predicate Indicated(paths: seq<string>, ind: Indicator) {
    exists p :: p in paths && IndicatorOf(p) == Some(ind)
  }

  lemma IndicatedIffListed(paths: seq<string>, ind: Indicator)
    ensures Collect(paths, IndicatorOf, ind) != [] <==> Indicated(paths, ind)
  {
    CollectMembers(paths, IndicatorOf, ind);
    if Collect(paths, IndicatorOf, ind) != [] {
      assert Collect(paths, IndicatorOf, ind)[0] in Collect(paths, IndicatorOf, ind);
    }
  }

  /** Any cypress indicator decides `cypress`, and `cypress` is never the
      answer otherwise. */
  lemma CypressWins(filePath: string, items: seq<TreeItem>)
    ensures FrameworkByStructure(filePath, Some(items)) == "cypress" <==> Indicated(BlobPaths(items), Cypress)
  {
    IndicatedIffListed(BlobPaths(items), Cypress);
  }

  /** Without a cypress indicator, any playwright indicator decides `playwright`. */
  lemma PlaywrightNext(filePath: string, items: seq<TreeItem>)
    requires !Indicated(BlobPaths(items), Cypress) && Indicated(BlobPaths(items), Playwright)
    ensures FrameworkByStructure(filePath, Some(items)) == "playwright"
  {
    IndicatedIffListed(BlobPaths(items), Cypress);
    IndicatedIffListed(BlobPaths(items), Playwright);
  }

  /** `selenium` is answered only for a Python target or a project with Python files. */
  lemma SeleniumNeedsPython(filePath: string, items: seq<TreeItem>)
    requires FrameworkByStructure(filePath, Some(items)) == "selenium"
    ensures DetectLanguageFromExtension(filePath) == "python" || Tally(BlobPaths(items), StatOf, Python) > 0
  {
  }

  /** No listed path feeds any indicator list. */
  predicate NoIndicators(paths: seq<string>) {
    forall p :: p in paths ==> IndicatorOf(p).None?
  }

  lemma NoIndicatorsMeansEmptyLists(paths: seq<string>)
    requires NoIndicators(paths)
    ensures forall ind :: ind in AllIndicators ==> IndicatorsOf(paths)[ind] == []
  {
    forall ind | ind in AllIndicators
      ensures IndicatorsOf(paths)[ind] == []
    {
      IndicatedIffListed(paths, ind);
    }
  }

  /** A Python target in a project without framework indicators defaults to `pytest`. */
  lemma PythonDefault(filePath: string, items: seq<TreeItem>)
    requires DetectLanguageFromExtension(filePath) == "python"
    requires NoIndicators(BlobPaths(items))
    ensures FrameworkByStructure(filePath, Some(items)) == "pytest"
  {
    NoIndicatorsMeansEmptyLists(BlobPaths(items));
  }

  /** A JavaScript or TypeScript target in a project without framework
      indicators and without more Python files than script files defaults to
      `jest`. */
  lemma ScriptDefault(filePath: string, items: seq<TreeItem>)
    requires DetectLanguageFromExtension(filePath) in {"javascript", "typescript"}
    requires Tally(BlobPaths(items), StatOf, Python) <= Tally(BlobPaths(items), StatOf, JavaScript) + Tally(BlobPaths(items), StatOf, TypeScript)
    requires NoIndicators(BlobPaths(items))
    ensures FrameworkByStructure(filePath, Some(items)) == "jest"
  {
    NoIndicatorsMeansEmptyLists(BlobPaths(items));
  }
}
