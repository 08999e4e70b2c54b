/**
  The dashboard's inline test generation: per repository (keyed by its full
  name) the fetched file list, the selected paths, the loading state and the
  suggestions, at most one expanded repository, and the grouping of the
  offered files by directory. Requests are not sent: each handler takes the
  answer the backend gave as a parameter.
*/
module Dashboard {
  import opened Outcome
  import opened Text
  import opened Handoff
  import opened Selection
  import Backend

  /** `UI.MAX_FILES_TO_SHOW`. */
  const MaxFilesToShow: nat := 20

  /** The group name of a top-level file. */
  const RootGroup: string := "root"

  /** The loading state of one repository: fetching its files or generating
      suggestions. */
  datatype Loading = LoadingFiles | Generating

  lemma {:induction false} JoinSnoc(parts: seq<string>, last: string, sep: string)
    requires |parts| >= 1
    ensures Join(parts + [last], sep) == Join(parts, sep) + sep + last
  {
    if |parts| == 1 {
      assert parts + [last] == [parts[0]] + [last];
      JoinCons(parts[0], [last], sep);
    } else {
      JoinSnoc(parts[1..], last, sep);
      assert parts + [last] == [parts[0]] + (parts[1..] + [last]);
      JoinCons(parts[0], parts[1..] + [last], sep);
      assert parts == [parts[0]] + parts[1..];
      JoinCons(parts[0], parts[1..], sep);
    }
  }

  /** A string with a `c` in it splits on `c` into at least two pieces. */
  lemma SplitAtChar(s: string, c: char)
    requires c in s
    ensures |Split(s, [c])| >= 2
  {
    ContainsChar(s, c);
    var i :| 0 <= i <= |s| - 1 && OccursAt(s, [c], i);
    assert IndexOf(s, [c]).Some?;
  }

  /** The group of a file: its path up to the last `/`, or `root` for a
      top-level file. */
  function DirectoryOf(path: string): (dir: string)
    ensures '/' !in path ==> dir == RootGroup
    ensures '/' in path ==> dir + "/" + AfterLast(path, '/') == path
  {
    var parts := Split(path, "/");
    if |parts| > 1 then
      var n := |parts|;
      JoinSplit(path, "/");
      assert parts == parts[..n - 1] + [parts[n - 1]];
      JoinSnoc(parts[..n - 1], parts[n - 1], "/");
      Join(parts[..n - 1], "/")
    else
      if '/' in path then SplitAtChar(path, '/'); RootGroup
      else RootGroup
  }

  /** `root/` followed by a name without `/` splits into `root` and the name. */
  lemma SplitRootPath(name: string)
    requires '/' !in name
    ensures Split("root/" + name, "/") == ["root", name]
  {
    var path := "root/" + name;
    assert path[4..5] == "/";
    assert OccursAt(path, "/", 4);
    forall j: nat | j < 4
      ensures !OccursAt(path, "/", j)
    {
      assert path[j..j + 1] == [path[j]];
      assert path[j] == "root"[j];
    }
    var i := IndexOf(path, "/").value;
    assert i == 4;
    assert path[5..] == name;
    ContainsChar(name, '/');
    SplitWithoutSeparator(name, "/");
    SplitAtFirst(path, "/", 4);
    assert path[..4] == "root";
    assert path[4 + |"/"|..] == name;
  }

  /** A top-level file and a file in a top-level directory named `root` land
      in the same group. */
  lemma RootDirectoryShared(name: string)
    requires '/' !in name
    ensures DirectoryOf("root/" + name) == DirectoryOf(name) == RootGroup
  {
    SplitRootPath(name);
    assert ["root", name][..1] == ["root"];
  }

  /** The items whose key is `k`, in their listed order. */
  function Group<T(!new)>(items: seq<T>, key: T -> string, k: string): (g: seq<T>)
    ensures |g| <= |items|
    ensures forall x :: x in g <==> x in items && key(x) == k
  {
    if items == [] then []
    else
      var init := items[..|items| - 1];
      var last := items[|items| - 1];
      assert items == init + [last];
      if key(last) == k then Group(init, key, k) + [last] else Group(init, key, k)
  }

  lemma GroupSnoc<T(!new)>(items: seq<T>, x: T, key: T -> string, k: string)
    ensures Group(items + [x], key, k) == Group(items, key, k) + (if key(x) == k then [x] else [])
  {
    assert (items + [x])[..|items|] == items;
  }

  /** Pushing each item onto the list of its key, creating the list on first
      use, gives for every key met the items with that key in order. */
  method GroupBy<T(!new)>(items: seq<T>, key: T -> string) returns (grouped: map<string, seq<T>>)
    ensures forall k :: k in grouped <==> exists x :: x in items && key(x) == k
    ensures forall k :: k in grouped ==> grouped[k] == Group(items, key, k) && grouped[k] != []
  {
    grouped := map[];
    for i := 0 to |items|
      invariant forall k :: k in grouped <==> exists x :: x in items[..i] && key(x) == k
      invariant forall k :: k in grouped ==> grouped[k] == Group(items[..i], key, k) && grouped[k] != []
    {
      var x := items[i];
      var k := key(x);
      assert items[..i + 1] == items[..i] + [x];
      forall k'
        ensures Group(items[..i + 1], key, k') == Group(items[..i], key, k') + (if key(x) == k' then [x] else [])
      {
        GroupSnoc(items[..i], x, key, k');
      }
      if k !in grouped {
        assert Group(items[..i], key, k) == [] by {
          if Group(items[..i], key, k) != [] {
            assert Group(items[..i], key, k)[0] in Group(items[..i], key, k);
          }
        }
        grouped := grouped[k := []];
      }
      grouped := grouped[k := grouped[k] + [x]];
    }
    assert items[..|items|] == items;
  }

  /** The directory of a file record. */
  function FileDirectory(file: RepoFile): string {
    DirectoryOf(file.path)
  }

  /** A directory name the grouping object already answers for: a key it
      inherits from `Object.prototype`, whose value has no `push`. */
  predicate InheritedDirectory(file: RepoFile) {
    DirectoryOf(file.path) in ObjectPrototypeKeys
  }

  /** The `forEach` of `renderFileList`: the files grouped by directory. A
      file whose directory is an inherited key finds a value there that is
      not a list, and the push on it throws: then there are no groups. */
  method GroupFiles(files: seq<RepoFile>) returns (grouped: Option<map<string, seq<RepoFile>>>)
    ensures grouped.None? <==> exists f :: f in files && InheritedDirectory(f)
    ensures grouped.Some? ==> forall d :: d in grouped.value <==> exists f :: f in files && DirectoryOf(f.path) == d
    ensures grouped.Some? ==> forall d :: d in grouped.value ==> grouped.value[d] == Group(files, FileDirectory, d) && grouped.value[d] != []
    ensures grouped.Some? ==> forall d, f :: d in grouped.value && f in grouped.value[d] ==> f in files && DirectoryOf(f.path) == d
  {
    if exists f :: f in files && InheritedDirectory(f) {
      return None;
    }
    var g := GroupBy(files, FileDirectory);
    return Some(g);
  }

  /** Each listed file belongs to exactly one group: the one named by its
      directory. */
  lemma GroupsPartition(files: seq<RepoFile>, f: RepoFile, d: string)
    requires f in files
    ensures f in Group(files, FileDirectory, d) <==> d == DirectoryOf(f.path)
  {
  }

  /** The sort of the groups: `root` first, the rest in the order `cmp`
      (`localeCompare`) gives, negative meaning first. */
  function CompareGroups(a: string, b: string, cmp: int): (order: int)
    ensures a == RootGroup ==> order < 0
    ensures a != RootGroup && b == RootGroup ==> order > 0
    ensures a != RootGroup && b != RootGroup ==> order == cmp
  {
    if a == RootGroup then -1 else if b == RootGroup then 1 else cmp
  }

  /** Whichever side it is on, `root` sorts before every other group. */
  lemma RootSortsFirst(other: string, cmp1: int, cmp2: int)
    requires other != RootGroup
    ensures CompareGroups(RootGroup, other, cmp1) < 0 && CompareGroups(other, RootGroup, cmp2) > 0
  {
  }

  /** `files.slice(0, MAX_FILES_TO_SHOW)`: the files offered for selection. */
  function OfferedFiles(files: seq<RepoFile>): (offered: seq<RepoFile>)
    ensures |offered| == if |files| < MaxFilesToShow then |files| else MaxFilesToShow
    ensures offered == files[..|offered|]
  {
    if |files| < MaxFilesToShow then files else files[..MaxFilesToShow]
  }

  /** The dashboard's per-repository state. */
  class DashboardState {
    var expandedRepo: Option<string>
    var repoFiles: map<string, seq<RepoFile>>
    var selectedFiles: map<string, seq<string>>
    var testSuggestions: map<string, seq<Backend.TestSuggestion>>
    var loadingStates: map<string, Option<Loading>>
    var error: string

    constructor()
      ensures expandedRepo == None && error == ""
      ensures repoFiles == map[] && selectedFiles == map[] && testSuggestions == map[] && loadingStates == map[]
    {
      expandedRepo := None;
      repoFiles := map[];
      selectedFiles := map[];
      testSuggestions := map[];
      loadingStates := map[];
      error := "";
    }

    /** `selectedFiles[repoKey] || []`. */
    function SelectionOf(repoKey: string): (selected: seq<string>)
      reads this
      ensures repoKey !in selectedFiles ==> selected == []
      ensures repoKey in selectedFiles ==> selected == selectedFiles[repoKey]
    {
      if repoKey in selectedFiles then selectedFiles[repoKey] else []
    }

    /** `toggleFileSelection`: only the entry of `repoKey` changes, by the
        uncapped toggle. */
    method ToggleFileSelection(repoKey: string, path: string)
      modifies this
      ensures selectedFiles == old(selectedFiles)[repoKey := Toggle(old(SelectionOf(repoKey)), path)]
      ensures forall k :: k in old(selectedFiles) && k != repoKey ==> k in selectedFiles && selectedFiles[k] == old(selectedFiles)[k]
      ensures path in old(SelectionOf(repoKey)) ==> path !in SelectionOf(repoKey)
      ensures path !in old(SelectionOf(repoKey)) ==> SelectionOf(repoKey) == old(SelectionOf(repoKey)) + [path]
      ensures expandedRepo == old(expandedRepo) && repoFiles == old(repoFiles) && testSuggestions == old(testSuggestions)
      ensures loadingStates == old(loadingStates) && error == old(error)
    {
      var current := SelectionOf(repoKey);
      selectedFiles := selectedFiles[repoKey := Toggle(current, path)];
    }

    /** `fetchRepoFiles`: nothing when the key's files are already cached;
        otherwise the answer's files are stored with an empty selection, or
        the error is set, and the key's loading state ends cleared. */
    method FetchRepoFiles(repoKey: string, repoName: string, reply: Response<seq<RepoFile>>)
      modifies this
      ensures old(repoKey in repoFiles) ==>
        (repoFiles == old(repoFiles) && selectedFiles == old(selectedFiles) && loadingStates == old(loadingStates) && error == old(error))
      ensures !old(repoKey in repoFiles) ==> loadingStates == old(loadingStates)[repoKey := None]
      ensures !old(repoKey in repoFiles) && reply.Success? ==>
        (repoFiles == old(repoFiles)[repoKey := reply.data] && selectedFiles == old(selectedFiles)[repoKey := []] && error == old(error))
      ensures !old(repoKey in repoFiles) && reply.Failure? ==>
        (repoFiles == old(repoFiles) && selectedFiles == old(selectedFiles) && error == "Failed to fetch files for " + repoName)
      ensures expandedRepo == old(expandedRepo) && testSuggestions == old(testSuggestions)
    {
      if repoKey in repoFiles {
        return;
      }
      loadingStates := loadingStates[repoKey := Some(LoadingFiles)];
      match reply {
        case Success(files) =>
          repoFiles := repoFiles[repoKey := files];
          selectedFiles := selectedFiles[repoKey := []];
        case Failure(_) =>
          error := "Failed to fetch files for " + repoName;
      }
      loadingStates := loadingStates[repoKey := None];
    }

    /** `toggleRepoExpansion`: collapses the expanded repository, or expands
        another one (collapsing the previous) and fetches its files. */
    method ToggleRepoExpansion(repoKey: string, repoName: string, reply: Response<seq<RepoFile>>)
      modifies this
      ensures old(expandedRepo) == Some(repoKey) ==>
        (expandedRepo == None && error == "" && repoFiles == old(repoFiles) && selectedFiles == old(selectedFiles)
         && loadingStates == old(loadingStates))
      ensures old(expandedRepo) != Some(repoKey) ==> expandedRepo == Some(repoKey)
      ensures old(expandedRepo) != Some(repoKey) && old(repoKey in repoFiles) ==>
        (error == "" && repoFiles == old(repoFiles) && selectedFiles == old(selectedFiles)
         && loadingStates == old(loadingStates))
      ensures old(expandedRepo) != Some(repoKey) && !old(repoKey in repoFiles) ==>
        loadingStates == old(loadingStates)[repoKey := None]
      ensures old(expandedRepo) != Some(repoKey) && !old(repoKey in repoFiles) && reply.Success? ==>
        (error == "" && repoFiles == old(repoFiles)[repoKey := reply.data]
         && selectedFiles == old(selectedFiles)[repoKey := []])
      ensures old(expandedRepo) != Some(repoKey) && !old(repoKey in repoFiles) && reply.Failure? ==>
        (error == "Failed to fetch files for " + repoName && repoFiles == old(repoFiles)
         && selectedFiles == old(selectedFiles))
      ensures testSuggestions == old(testSuggestions)
    {
      error := "";
      if expandedRepo == Some(repoKey) {
        expandedRepo := None;
      } else {
        expandedRepo := Some(repoKey);
        FetchRepoFiles(repoKey, repoName, reply);
      }
    }

    /** `generateTestSuggestions`: with nothing selected for the key, an
        error and no request; otherwise the selection is sent (`request`),
        the answer is stored for the key or its detail becomes the error, and
        the key's loading state ends cleared. */
    method GenerateTestSuggestions(repoKey: string, reply: Response<seq<Backend.TestSuggestion>>)
      returns (request: Option<seq<string>>)
      modifies this
      ensures old(SelectionOf(repoKey)) == [] ==>
        (request == None && error == "Please select at least one file to generate tests"
         && loadingStates == old(loadingStates) && testSuggestions == old(testSuggestions))
      ensures old(SelectionOf(repoKey)) != [] ==>
        (request == Some(old(SelectionOf(repoKey))) && loadingStates == old(loadingStates)[repoKey := None])
      ensures old(SelectionOf(repoKey)) != [] && reply.Success? ==>
        (testSuggestions == old(testSuggestions)[repoKey := reply.data] && error == "")
      ensures old(SelectionOf(repoKey)) != [] && reply.Failure? ==>
        (testSuggestions == old(testSuggestions) && error == FailureMessage(reply.detail, "Failed to generate test suggestions"))
      ensures expandedRepo == old(expandedRepo) && repoFiles == old(repoFiles) && selectedFiles == old(selectedFiles)
    {
      var files := SelectionOf(repoKey);
      error := "";
      if |files| == 0 {
        error := "Please select at least one file to generate tests";
        return None;
      }
      loadingStates := loadingStates[repoKey := Some(Generating)];
      request := Some(files);
      match reply {
        case Success(data) =>
          testSuggestions := testSuggestions[repoKey := data];
        case Failure(detail) =>
          error := FailureMessage(detail, "Failed to generate test suggestions");
      }
      loadingStates := loadingStates[repoKey := None];
    }
  }
}
