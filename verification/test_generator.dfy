/**
  The test generator page: it reads the snapshot left by the analyzer, keeps
  the file selection and the framework choice, asks for suggestions, for the
  code of one suggestion, and for a pull request holding that code. Each
  remote call is replaced by its answer, passed as a parameter; the clock
  reading used in the branch name is a parameter too.
*/
module TestGenerator {
  import opened Outcome
  import opened Text
  import opened Handoff
  import Utils
  import Backend

  /** The address of the analyzer page. */
  const AnalyzePage: string := "/analyze"

  /** The frameworks offered when the lookup for the first selected file
      fails, and the one then chosen. */
  const FallbackFrameworks: seq<string> := ["selenium", "jest", "pytest", "junit"]
  const FallbackFramework: string := "selenium"

  const BranchPrefix: string := "testgen/"

  const SuggestionsFallback: string := "Failed to generate test suggestions. Please try again."
  const CodeFallback: string := "Failed to generate test code. Please try again."
  const PullRequestFallback: string := "Failed to create pull request. Please try again."
  const SelectionRequired: string := "Please select at least one file"
  const CodeGenerated: string := "Test code generated successfully!"
  /** The success message after `count` suggestions arrived. */
  function SuggestionsGenerated(count: nat): string {
    "Generated " + NatToString(count) + " test suggestions"
  }

  const AuthenticationRequired: string := "Authentication required to create pull requests"
  const PullRequestCreated: string := "Pull request created successfully! View PR #"

  /** The answer of the framework lookup for one file; either key may be
      missing. */
  datatype FrameworkInfo = FrameworkInfo(availableFrameworks: Option<seq<string>>, defaultFramework: Option<string>)

  /** The answer of the suggestion request; the `suggestions` key may be
      missing. */
  datatype SuggestionsAnswer = SuggestionsAnswer(suggestions: Option<seq<Backend.TestSuggestion>>)

  /** The generated test and the file name the backend proposes for it. */
  datatype GeneratedCode = GeneratedCode(testCode: string, suggestedFilename: string)

  /** What the page sends to open a pull request. */
  datatype PullRequestRequest = PullRequestRequest(
    repoFullName: string, testCode: string, testFileName: string, branchName: string, commitMessage: string)

  /** The answer of a pull request creation. */
  datatype PullRequestInfo = PullRequestInfo(prUrl: string, prNumber: int)

  /** `s.replace(/\./g, '-')`. */
  function DotsToHyphens(s: string): (r: string)
    ensures |r| == |s| && '.' !in r
    ensures forall i :: 0 <= i < |s| ==> r[i] == if s[i] == '.' then '-' else s[i]
  {
    seq(|s|, i requires 0 <= i < |s| => if s[i] == '.' then '-' else s[i])
  }

  /** A decimal rendering holds digits and a leading minus only. */
  lemma DecimalHasNoDot(t: int)
    ensures '.' !in IntToString(t)
  {
    if t < 0 {
      assert IntToString(t) == "-" + NatToString(-t);
      assert forall i :: 1 <= i < |IntToString(t)| ==> IntToString(t)[i] == NatToString(-t)[i - 1];
    }
  }

  /** The branch of a pull request: `testgen/`, the file name with its dots
      turned into hyphens, a hyphen and the timestamp. */
  function BranchName(filename: string, timestamp: int): (branch: string)
    ensures StartsWith(branch, BranchPrefix)
    ensures '.' !in branch
    ensures |branch| == |BranchPrefix| + |filename| + 1 + |IntToString(timestamp)|
    ensures forall i :: 0 <= i < |filename| ==>
      branch[|BranchPrefix| + i] == if filename[i] == '.' then '-' else filename[i]
    ensures EndsWith(branch, "-" + IntToString(timestamp))
  {
    DecimalHasNoDot(timestamp);
    var branch := BranchPrefix + DotsToHyphens(filename) + "-" + IntToString(timestamp);
    assert branch[|branch| - |"-" + IntToString(timestamp)|..] == "-" + IntToString(timestamp);
    branch
  }

  /** Two files whose names differ other than by dots versus hyphens get
      different branches for the same timestamp. */
  lemma BranchNamesSeparateFiles(f1: string, f2: string, timestamp: int, i: nat)
    requires |f1| == |f2| && i < |f1| && f1[i] != f2[i]
    requires f1[i] != '.' && f2[i] != '.'
    ensures BranchName(f1, timestamp) != BranchName(f2, timestamp)
  {
    assert BranchName(f1, timestamp)[|BranchPrefix| + i] == f1[i];
    assert BranchName(f2, timestamp)[|BranchPrefix| + i] == f2[i];
  }

  /** The commit message of a pull request: `Add` and the file name, a blank
      line, and the suggestion summary in full. */
  function CommitMessage(filename: string, summary: string): (message: string)
    ensures StartsWith(message, "Add " + filename + "\n\n")
    ensures EndsWith(message, "Generated test for: " + summary)
    ensures '\n' !in filename ==> BeforeFirst(message, '\n') == "Add " + filename
    ensures |message| == |filename| + |summary| + 26
  {
    var head := "Add " + filename + "\n\n";
    var tail := "Generated test for: " + summary;
    var message := head + tail;
    assert message[..|head|] == head;
    assert message[|head|..] == tail;
    if '\n' in filename then message
    else
      FirstLine(message, "Add " + filename);
      message
  }

  /** A string that starts with a line without a line break, followed by a
      line break, has that line first. */
  lemma FirstLine(s: string, line: string)
    requires StartsWith(s, line + "\n") && '\n' !in line
    ensures BeforeFirst(s, '\n') == line
  {
    var r := BeforeFirst(s, '\n');
    assert s[|line|] == '\n';
    assert forall i :: 0 <= i < |line| ==> s[i] == line[i];
    assert r == s[..|r|];
  }

  /** The page's commit message is the backend's own formatting whenever the
      summary is short enough for the backend not to shorten it. */
  lemma CommitMessageAgrees(filename: string, summary: string)
    requires |summary| <= Utils.MaxSummaryLength
    ensures CommitMessage(filename, summary) == Utils.FormatCommitMessage(filename, summary)
  {
  }

  /** The test generator page. */
  class GeneratorPage {
    var repoData: Option<Snapshot>
    var selectedFiles: seq<string>
    var selectedFramework: string
    var availableFrameworks: seq<string>
    var suggestions: seq<Backend.TestSuggestion>
    var selectedSuggestion: Option<Backend.TestSuggestion>
    var generatedCode: Option<GeneratedCode>
    var loadingSuggestions: bool
    var loadingCode: bool
    var creatingPR: bool
    var error: string
    var success: string

    /** Generated code is only ever held together with the suggestion it was
        generated for and the repository it belongs to. */
    predicate Valid()
      reads this
    {
      generatedCode.Some? ==> selectedSuggestion.Some? && repoData.Some?
    }

    constructor()
      ensures Valid()
      ensures repoData == None && selectedFiles == [] && selectedFramework == "" && availableFrameworks == []
      ensures suggestions == [] && selectedSuggestion == None && generatedCode == None
      ensures !loadingSuggestions && !loadingCode && !creatingPR && error == "" && success == ""
    {
      repoData := None;
      selectedFiles := [];
      selectedFramework := "";
      availableFrameworks := [];
      suggestions := [];
      selectedSuggestion := None;
      generatedCode := None;
      loadingSuggestions := false;
      loadingCode := false;
      creatingPR := false;
      error := "";
      success := "";
    }

    /** The mount effect: a stored snapshot becomes the page's repository;
        without one the page sends the user to the analyzer. */
    method Mount(storage: SessionStorage) returns (redirect: Option<string>)
      modifies this
      ensures storage.repoData.Some? ==> (repoData == storage.repoData && redirect == None)
      ensures storage.repoData.None? ==> (repoData == old(repoData) && redirect == Some(AnalyzePage))
      ensures old(Valid()) ==> Valid()
      ensures selectedFiles == old(selectedFiles) && generatedCode == old(generatedCode)
      ensures selectedSuggestion == old(selectedSuggestion) && suggestions == old(suggestions)
      ensures selectedFramework == old(selectedFramework) && availableFrameworks == old(availableFrameworks)
      ensures loadingSuggestions == old(loadingSuggestions) && loadingCode == old(loadingCode) && creatingPR == old(creatingPR)
      ensures error == old(error) && success == old(success)
    {
      if storage.repoData.Some? {
        repoData := storage.repoData;
        redirect := None;
      } else {
        redirect := Some(AnalyzePage);
      }
    }

    /** The framework effect: with files selected, the first one is looked
        up (`request`); its answer gives the offered frameworks and the
        choice, and a failed lookup gives the fallback list with `selenium`
        chosen. Without a selection nothing happens. */
    method UpdateFrameworks(reply: Response<FrameworkInfo>) returns (request: Option<string>)
      modifies this
      ensures selectedFiles == [] ==>
        (request == None && availableFrameworks == old(availableFrameworks) && selectedFramework == old(selectedFramework))
      ensures selectedFiles != [] ==> request == Some(selectedFiles[0])
      ensures selectedFiles != [] && reply.Failure? ==>
        (availableFrameworks == FallbackFrameworks && selectedFramework == FallbackFramework
         && selectedFramework in availableFrameworks)
      ensures selectedFiles != [] && reply.Success? ==>
        (availableFrameworks == (if reply.data.availableFrameworks.Some? then reply.data.availableFrameworks.value else [])
         && selectedFramework == FailureMessage(reply.data.defaultFramework, ""))
      ensures selectedFiles == old(selectedFiles) && repoData == old(repoData) && suggestions == old(suggestions)
      ensures generatedCode == old(generatedCode) && selectedSuggestion == old(selectedSuggestion) && error == old(error)
      ensures loadingSuggestions == old(loadingSuggestions) && loadingCode == old(loadingCode) && creatingPR == old(creatingPR)
      ensures success == old(success)
    {
      if |selectedFiles| == 0 {
        return None;
      }
      request := Some(selectedFiles[0]);
      match reply {
        case Success(info) =>
          availableFrameworks := if info.availableFrameworks.Some? then info.availableFrameworks.value else [];
          selectedFramework := FailureMessage(info.defaultFramework, "");
        case Failure(_) =>
          availableFrameworks := FallbackFrameworks;
          selectedFramework := FallbackFramework;
      }
    }

    /** A new selection from the file picker, followed by the framework
        effect it triggers. */
    method ChangeSelection(files: seq<string>, reply: Response<FrameworkInfo>) returns (request: Option<string>)
      modifies this
      ensures selectedFiles == files
      ensures files == [] ==> request == None
      ensures files != [] ==> request == Some(files[0])
      ensures files == [] ==>
        availableFrameworks == old(availableFrameworks) && selectedFramework == old(selectedFramework)
      ensures files != [] && reply.Failure? ==>
        availableFrameworks == FallbackFrameworks && selectedFramework == FallbackFramework
      ensures files != [] && reply.Success? ==>
        (availableFrameworks == (if reply.data.availableFrameworks.Some? then reply.data.availableFrameworks.value else [])
         && selectedFramework == FailureMessage(reply.data.defaultFramework, ""))
      ensures old(Valid()) ==> Valid()
      ensures repoData == old(repoData) && suggestions == old(suggestions)
      ensures generatedCode == old(generatedCode) && selectedSuggestion == old(selectedSuggestion)
      ensures loadingSuggestions == old(loadingSuggestions) && loadingCode == old(loadingCode) && creatingPR == old(creatingPR)
      ensures error == old(error) && success == old(success)
    {
      selectedFiles := files;
      request := UpdateFrameworks(reply);
    }

    /** `handleGenerateSuggestions`: with nothing selected, an error and no
        request. Otherwise the error, the suggestions, the chosen suggestion
        and the code are cleared; without a repository the call fails before
        it is sent; the answer's suggestions (none when the key is missing)
        are kept with a count message, or its detail becomes the error. */
    method HandleGenerateSuggestions(reply: Response<SuggestionsAnswer>)
      returns (request: Option<(string, seq<string>, string)>)
      modifies this
      ensures old(Valid()) ==> Valid()
      ensures old(selectedFiles) == [] ==>
        (request == None && error == SelectionRequired && suggestions == old(suggestions)
         && generatedCode == old(generatedCode) && selectedSuggestion == old(selectedSuggestion)
         && loadingSuggestions == old(loadingSuggestions))
      ensures old(selectedFiles) != [] ==>
        (generatedCode == None && selectedSuggestion == None && !loadingSuggestions)
      ensures old(selectedFiles) != [] && repoData.Some? ==>
        request == Some((repoData.value.repoUrl, selectedFiles, selectedFramework))
      ensures old(selectedFiles) != [] && repoData.None? ==>
        (request == None && suggestions == [] && error == SuggestionsFallback)
      ensures old(selectedFiles) != [] && repoData.Some? && reply.Failure? ==>
        (suggestions == [] && error == FailureMessage(reply.detail, SuggestionsFallback))
      ensures old(selectedFiles) != [] && repoData.Some? && reply.Success? ==>
        (error == ""
         && suggestions == (if reply.data.suggestions.Some? then reply.data.suggestions.value else [])
         && success == SuggestionsGenerated(|suggestions|))
      ensures selectedFiles == old(selectedFiles) && repoData == old(repoData) && selectedFramework == old(selectedFramework)
      ensures availableFrameworks == old(availableFrameworks) && loadingCode == old(loadingCode) && creatingPR == old(creatingPR)
      ensures !(old(selectedFiles) != [] && repoData.Some? && reply.Success?) ==> success == old(success)
    {
      if |selectedFiles| == 0 {
        error := SelectionRequired;
        return None;
      }
      loadingSuggestions := true;
      error := "";
      suggestions := [];
      selectedSuggestion := None;
      generatedCode := None;
      if repoData.None? {
        request := None;
        error := SuggestionsFallback;
      } else {
        request := Some((repoData.value.repoUrl, selectedFiles, selectedFramework));
        match reply {
          case Success(answer) =>
            suggestions := if answer.suggestions.Some? then answer.suggestions.value else [];
            success := SuggestionsGenerated(|suggestions|);
          case Failure(detail) =>
            error := FailureMessage(detail, SuggestionsFallback);
        }
      }
      loadingSuggestions := false;
    }

    /** `handleGenerateCode`: the error and the previous code are cleared and
        the suggestion is chosen; the request carries the suggestion, the
        selected files and the chosen framework; without a repository the
        call fails before it is sent; only a successful answer provides
        code. */
    method HandleGenerateCode(suggestion: Backend.TestSuggestion, reply: Response<GeneratedCode>)
      returns (request: Option<(string, nat, string, seq<string>, string)>)
      modifies this
      ensures Valid()
      ensures selectedSuggestion == Some(suggestion) && !loadingCode
      ensures generatedCode.Some? <==> repoData.Some? && reply.Success?
      ensures generatedCode.Some? ==> generatedCode.value == reply.data && success == CodeGenerated
      ensures repoData.Some? ==>
        request == Some((repoData.value.repoUrl, suggestion.id, suggestion.summary, selectedFiles, selectedFramework))
      ensures repoData.None? ==> (request == None && error == CodeFallback)
      ensures repoData.Some? && reply.Success? ==> error == ""
      ensures repoData.Some? && reply.Failure? ==> error == FailureMessage(reply.detail, CodeFallback)
      ensures selectedFiles == old(selectedFiles) && repoData == old(repoData) && suggestions == old(suggestions)
      ensures selectedFramework == old(selectedFramework) && availableFrameworks == old(availableFrameworks)
      ensures loadingSuggestions == old(loadingSuggestions) && creatingPR == old(creatingPR)
      ensures generatedCode.None? ==> success == old(success)
    {
      loadingCode := true;
      error := "";
      generatedCode := None;
      selectedSuggestion := Some(suggestion);
      if repoData.None? {
        request := None;
        error := CodeFallback;
      } else {
        request := Some((repoData.value.repoUrl, suggestion.id, suggestion.summary, selectedFiles, selectedFramework));
        match reply {
          case Success(code) =>
            generatedCode := Some(code);
            success := CodeGenerated;
          case Failure(detail) =>
            error := FailureMessage(detail, CodeFallback);
        }
      }
      loadingCode := false;
    }

    /** `handleCreatePR`: without generated code or without a signed-in user,
        an error and no request. Otherwise the pull request is asked for with
        the generated code, its file name, the branch and the commit message;
        a missing suggestion or repository fails before the request. */
    method HandleCreatePR(isAuthenticated: bool, timestamp: int, reply: Response<PullRequestInfo>)
      returns (request: Option<PullRequestRequest>)
      modifies this
      ensures generatedCode.None? || !isAuthenticated ==>
        (request == None && error == AuthenticationRequired && creatingPR == old(creatingPR))
      ensures generatedCode.Some? && isAuthenticated ==> !creatingPR
      ensures generatedCode.Some? && isAuthenticated && selectedSuggestion.Some? && repoData.Some? ==>
        request == Some(PullRequestRequest(
          repoData.value.repository.fullName, generatedCode.value.testCode, generatedCode.value.suggestedFilename,
          BranchName(generatedCode.value.suggestedFilename, timestamp),
          CommitMessage(generatedCode.value.suggestedFilename, selectedSuggestion.value.summary)))
      ensures generatedCode.Some? && isAuthenticated && (selectedSuggestion.None? || repoData.None?) ==>
        (request == None && error == PullRequestFallback)
      ensures request.Some? && reply.Success? ==>
        (error == "" && success == PullRequestCreated + IntToString(reply.data.prNumber))
      ensures request.Some? && reply.Failure? ==> error == FailureMessage(reply.detail, PullRequestFallback)
      ensures Valid() && generatedCode.Some? && isAuthenticated ==> request.Some?
      ensures repoData == old(repoData) && generatedCode == old(generatedCode) && selectedSuggestion == old(selectedSuggestion)
      ensures selectedFiles == old(selectedFiles) && suggestions == old(suggestions)
      ensures selectedFramework == old(selectedFramework) && availableFrameworks == old(availableFrameworks)
      ensures loadingSuggestions == old(loadingSuggestions) && loadingCode == old(loadingCode)
      ensures !(request.Some? && reply.Success?) ==> success == old(success)
    {
      if generatedCode.None? || !isAuthenticated {
        error := AuthenticationRequired;
        return None;
      }
      creatingPR := true;
      error := "";
      if selectedSuggestion.None? || repoData.None? {
        error := PullRequestFallback;
        creatingPR := false;
        return None;
      }
      var code := generatedCode.value;
      var branch := BranchName(code.suggestedFilename, timestamp);
      var message := CommitMessage(code.suggestedFilename, selectedSuggestion.value.summary);
      request := Some(PullRequestRequest(
        repoData.value.repository.fullName, code.testCode, code.suggestedFilename, branch, message));
      if reply.Success? {
        success := PullRequestCreated + IntToString(reply.data.prNumber);
      } else {
        error := FailureMessage(reply.detail, PullRequestFallback);
      }
      creatingPR := false;
    }
  }
}
