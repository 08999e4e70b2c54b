/**
  The repository analyzer page: a URL input, the analysis request (its answer
  is a parameter), the snapshot handed to the test generator page through
  session storage, and the clean-up of a typed URL for display.
*/
module RepoAnalyzer {
  import opened Outcome
  import opened Text
  import opened Handoff

  const HttpsPrefix: string := "https://github.com/"
  const HttpPrefix: string := "http://github.com/"
  const GitSuffix: string := ".git"

  /** The address of the test generator page. */
  const GeneratePage: string := "/generate"

  const AnalyzeFallback: string := "Failed to analyze repository. Please check the URL and try again."

  /** `formatRepoUrl`: one leading `http(s)://github.com/` is removed, then one
      trailing `.git`, then surrounding whitespace. */
  function FormatRepoUrl(url: string): (shown: string)
    ensures Stripped(shown)
    ensures |shown| <= |url|
  {
    var noHost :=
      if StartsWith(url, HttpsPrefix) then url[|HttpsPrefix|..]
      else if StartsWith(url, HttpPrefix) then url[|HttpPrefix|..]
      else url;
    var noSuffix := if EndsWith(noHost, GitSuffix) then noHost[..|noHost| - |GitSuffix|] else noHost;
    Strip(noSuffix)
  }

  /** A repository address written in full, with or without the `.git`
      suffix, is shown as the path that follows the host. */
  lemma FormatRepoUrlRoundTrip(path: string)
    requires Stripped(path)
    ensures FormatRepoUrl(HttpsPrefix + path + GitSuffix) == path
    ensures FormatRepoUrl(HttpPrefix + path + GitSuffix) == path
    ensures !EndsWith(path, GitSuffix) ==> FormatRepoUrl(HttpsPrefix + path) == path
  {
    FormatHttpsGit(path);
    FormatHttpGit(path);
    if !EndsWith(path, GitSuffix) {
      FormatHttpsBare(path);
    }
  }

  lemma FormatHttpsGit(path: string)
    requires Stripped(path)
    ensures FormatRepoUrl(HttpsPrefix + path + GitSuffix) == path
  {
    var full := HttpsPrefix + path + GitSuffix;
    assert StartsWith(full, HttpsPrefix);
    assert full[|HttpsPrefix|..] == path + GitSuffix;
    GitDropped(path);
  }

  lemma FormatHttpGit(path: string)
    requires Stripped(path)
    ensures FormatRepoUrl(HttpPrefix + path + GitSuffix) == path
  {
    var plain := HttpPrefix + path + GitSuffix;
    assert StartsWith(plain, HttpPrefix);
    assert !StartsWith(plain, HttpsPrefix) by { assert plain[4] != HttpsPrefix[4]; }
    assert plain[|HttpPrefix|..] == path + GitSuffix;
    GitDropped(path);
  }

  lemma FormatHttpsBare(path: string)
    requires Stripped(path) && !EndsWith(path, GitSuffix)
    ensures FormatRepoUrl(HttpsPrefix + path) == path
  {
    var bare := HttpsPrefix + path;
    assert StartsWith(bare, HttpsPrefix);
    assert bare[|HttpsPrefix|..] == path;
  }

  /** The `.git` suffix comes off exactly. */
  lemma GitDropped(path: string)
    ensures var t := path + GitSuffix;
      EndsWith(t, GitSuffix) && t[..|t| - |GitSuffix|] == path
  {
    var t := path + GitSuffix;
    assert t[|t| - |GitSuffix|..] == GitSuffix;
    assert t[..|t| - |GitSuffix|] == path;
  }

  /** Since the suffix is removed before the whitespace, a `.git` followed
      by a space is kept. */
  lemma GitBeforeSpaceKept(path: string)
    requires path != [] && path[0] != 'h' && Stripped(path)
    ensures FormatRepoUrl(path + GitSuffix + " ") == path + GitSuffix
  {
    var kept := path + GitSuffix;
    var url := kept + " ";
    assert path + GitSuffix + " " == url;
    assert !StartsWith(url, HttpsPrefix) && !StartsWith(url, HttpPrefix) by {
      assert url[0] == path[0];
    }
    assert !EndsWith(url, GitSuffix) by {
      assert url[|url| - 1] == ' ';
    }
    assert Stripped(kept) by {
      assert kept[0] == path[0];
    }
    TrailingSpaceStripped(kept);
  }

  /** A stripped non-empty string followed by one space strips back to
      itself. */
  lemma TrailingSpaceStripped(s: string)
    requires s != [] && Stripped(s)
    ensures Strip(s + " ") == s
  {
    var t := s + " ";
    assert t[0] == s[0];
    assert LStrip(t) == t;
    assert t[..|t| - 1] == s;
    assert RStrip(t) == RStrip(s);
    assert RStrip(s) == s;
  }

  /** The analyzer page. */
  class AnalyzerPage {
    var repoUrl: string
    var loading: bool
    var error: string
    var repoData: Option<AnalysisResult>

    constructor()
      ensures repoUrl == "" && !loading && error == "" && repoData == None
    {
      repoUrl := "";
      loading := false;
      error := "";
      repoData := None;
    }

    /** The input's `onChange`: the typed text becomes the URL, nothing else
        changes. */
    method SetRepoUrl(text: string)
      modifies this
      ensures repoUrl == text
      ensures loading == old(loading) && error == old(error) && repoData == old(repoData)
    {
      repoUrl := text;
    }

    /** `handleAnalyze`: a blank input sets an error and sends nothing;
        otherwise the error and the previous result are cleared, the trimmed
        URL is sent (`request`), and the answer becomes the result or its
        detail the error. The loading flag ends false. */
    method HandleAnalyze(reply: Response<AnalysisResult>) returns (request: Option<string>)
      modifies this
      ensures repoUrl == old(repoUrl)
      ensures request.None? <==> Strip(repoUrl) == ""
      ensures request.Some? ==> request.value == Strip(repoUrl)
      ensures request.None? ==>
        (error == "Please enter a repository URL" && repoData == old(repoData) && loading == old(loading))
      ensures request.Some? && reply.Success? ==> (repoData == Some(reply.data) && error == "" && !loading)
      ensures request.Some? && reply.Failure? ==>
        (repoData == None && error == FailureMessage(reply.detail, AnalyzeFallback) && !loading)
    {
      var trimmed := Strip(repoUrl);
      if trimmed == "" {
        error := "Please enter a repository URL";
        return None;
      }
      loading := true;
      error := "";
      repoData := None;
      request := Some(trimmed);
      match reply {
        case Success(data) =>
          repoData := Some(data);
        case Failure(detail) =>
          error := FailureMessage(detail, AnalyzeFallback);
      }
      loading := false;
    }

    /** `handleGenerateTests`: with a result present, the typed URL and the
        result are stored in the single storage slot and the page moves to
        the test generator; without one nothing happens. */
    method HandleGenerateTests(storage: SessionStorage) returns (navigateTo: Option<string>)
      modifies storage
      ensures repoData.None? ==> (navigateTo == None && storage.repoData == old(storage.repoData))
      ensures repoData.Some? ==> navigateTo == Some(GeneratePage)
      ensures repoData.Some? ==>
        storage.repoData == Some(Snapshot(repoUrl, repoData.value.repository, repoData.value.files, repoData.value.totalFiles, None))
    {
      match repoData {
        case None =>
          navigateTo := None;
        case Some(data) =>
          storage.repoData := Some(Snapshot(repoUrl, data.repository, data.files, data.totalFiles, None));
          navigateTo := Some(GeneratePage);
      }
    }
  }
}
