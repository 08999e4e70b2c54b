/**
  The file picker of the test generator page: a case-insensitive search over
  the listed files, a toggle that never lets more than five paths be
  selected, and a select-all button. The selection itself belongs to the
  page; every operation here returns the selection to hand back.
*/
module FileSelector {
  import opened Text
  import opened Selection
  import opened Handoff

  const MaxSelected: nat := 5

  /** The lower-cased path contains the lower-cased search term. */
  predicate Matches(file: RepoFile, searchTerm: string) {
    Contains(Lower(file.path), Lower(searchTerm))
  }

  lemma EmptyTermMatches(file: RepoFile)
    ensures Matches(file, "")
  {
    assert OccursAt(Lower(file.path), "", 0);
  }

  /** `filteredFiles`: the matching files, in their listed order. */
  function FilteredFiles(files: seq<RepoFile>, searchTerm: string): (r: seq<RepoFile>)
    ensures |r| <= |files|
    ensures forall f :: f in r <==> f in files && Matches(f, searchTerm)
    ensures searchTerm == "" ==> r == files
  {
    if files == [] then []
    else
      var init := files[..|files| - 1];
      var last := files[|files| - 1];
      assert files == init + [last];
      EmptyTermMatches(last);
      if Matches(last, searchTerm) then FilteredFiles(init, searchTerm) + [last]
      else FilteredFiles(init, searchTerm)
  }

  /** The filter keeps order and repetition: filtering a concatenation is
      filtering each part in turn. */
  lemma {:induction false} FilteredFilesAppend(a: seq<RepoFile>, b: seq<RepoFile>, searchTerm: string)
    ensures FilteredFiles(a + b, searchTerm) == FilteredFiles(a, searchTerm) + FilteredFiles(b, searchTerm)
    decreases |b|
  {
    if b == [] {
      assert a + b == a;
    } else {
      var init := b[..|b| - 1];
      assert (a + b)[..|a + b| - 1] == a + init;
      FilteredFilesAppend(a, init, searchTerm);
    }
  }

  /** A single file is kept exactly when it matches. */
  lemma FilteredFilesSingle(file: RepoFile, searchTerm: string)
    ensures FilteredFiles([file], searchTerm) == if Matches(file, searchTerm) then [file] else []
  {
    assert [file][..0] == [];
  }

  /** `handleFileToggle`: a selected path is removed; another is appended
      only while fewer than five are selected, and ignored otherwise. */
  function HandleFileToggle(selected: seq<string>, path: string): (r: seq<string>)
    ensures path in selected ==> path !in r && forall y :: y != path ==> (y in r <==> y in selected)
    ensures path in selected ==> r == Without(selected, path)
    ensures path !in selected && |selected| < MaxSelected ==> r == selected + [path]
    ensures path !in selected && |selected| >= MaxSelected ==> r == selected
    ensures NoDuplicates(selected) && |selected| <= MaxSelected ==> NoDuplicates(r) && |r| <= MaxSelected
  {
    if path in selected then Without(selected, path)
    else if |selected| < MaxSelected then selected + [path]
    else selected
  }

  /** `isDisabled`: an unselected row while five are selected. A disabled
      row is exactly one whose toggle would change nothing without being a
      deselection; a selected row is never disabled. */
  function IsDisabled(selected: seq<string>, path: string): (b: bool)
    ensures path in selected ==> !b
    ensures b ==> HandleFileToggle(selected, path) == selected
    ensures !b && path !in selected ==> HandleFileToggle(selected, path) == selected + [path]
  {
    path !in selected && |selected| >= MaxSelected
  }

  /** A click on a row: ignored when the row is disabled. The guard only
      repeats the cap of the toggle, so a click is always the toggle. */
  function Click(selected: seq<string>, path: string): (r: seq<string>)
    ensures IsDisabled(selected, path) ==> r == selected
    ensures r == HandleFileToggle(selected, path)
  {
    if IsDisabled(selected, path) then selected else HandleFileToggle(selected, path)
  }

  /** The selection after a sequence of clicks, in order. */
  function ApplyClicks(selected: seq<string>, clicks: seq<string>): seq<string> {
    if clicks == [] then selected
    else Click(ApplyClicks(selected, clicks[..|clicks| - 1]), clicks[|clicks| - 1])
  }

  /** Any sequence of clicks keeps a selection free of duplicates and at
      most five long. */
  lemma {:induction false} ClicksKeepBounds(selected: seq<string>, clicks: seq<string>)
    requires NoDuplicates(selected) && |selected| <= MaxSelected
    ensures NoDuplicates(ApplyClicks(selected, clicks)) && |ApplyClicks(selected, clicks)| <= MaxSelected
  {
    if clicks != [] {
      ClicksKeepBounds(selected, clicks[..|clicks| - 1]);
    }
  }

  function Paths(files: seq<RepoFile>): (ps: seq<string>)
    ensures |ps| == |files|
    ensures forall i :: 0 <= i < |ps| ==> ps[i] == files[i].path
  {
    seq(|files|, i requires 0 <= i < |files| => files[i].path)
  }

  /** `handleSelectAll`: nothing when as many paths are selected as files are
      shown (a comparison of counts only), otherwise the first five shown
      paths in order. */
  function HandleSelectAll(selected: seq<string>, filtered: seq<RepoFile>): (r: seq<string>)
    ensures |r| <= MaxSelected
    ensures |selected| == |filtered| ==> r == []
    ensures |selected| != |filtered| ==> |r| == if |filtered| < MaxSelected then |filtered| else MaxSelected
    ensures forall i :: 0 <= i < |r| ==> r[i] == filtered[i].path
  {
    if |selected| == |filtered| then []
    else Paths(filtered[..if |filtered| < MaxSelected then |filtered| else MaxSelected])
  }
}
