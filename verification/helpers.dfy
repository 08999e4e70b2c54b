/**
  The frontend's display helpers: file sizes, file icons, text truncation and
  the testable-file test, over the extension lists of the frontend
  constants.
*/
module Helpers {
  import opened Outcome
  import opened Text

  const CodeExtensions: seq<string> := ["js", "jsx", "ts", "tsx", "py", "java", "go", "rb", "php", "cs", "cpp", "c", "rs", "kt", "swift"]
  const ConfigExtensions: seq<string> := ["json", "yaml", "yml", "toml", "ini", "cfg"]
  const MarkupExtensions: seq<string> := ["html", "xml", "md", "rst"]
  const StyleExtensions: seq<string> := ["css", "scss", "sass", "less"]

  /** The default `maxLength` of `truncateText`. */
  const MaxFilePreviewSize: int := 2000

  /** `name.split('.').pop().toLowerCase()`: the lower-cased text after the
      last dot, the whole name when there is none. */
  function FileExtension(name: string): (ext: string)
    ensures '.' !in ext
    ensures '.' !in name ==> ext == Lower(name)
    ensures '.' in name ==>
      |ext| < |name| && name[|name| - |ext| - 1] == '.' && ext == Lower(name[|name| - |ext|..])
  {
    var suffix := AfterLast(name, '.');
    LowerKeepsChar(suffix, '.');
    if '.' in name then AfterLastFollows(name, '.'); Lower(suffix) else Lower(suffix)
  }

  /** The four extension lists share no entry. */
  lemma ExtensionListsDisjoint(ext: string)
    ensures ext in CodeExtensions ==> ext !in ConfigExtensions && ext !in MarkupExtensions && ext !in StyleExtensions
    ensures ext in ConfigExtensions ==> ext !in MarkupExtensions && ext !in StyleExtensions
    ensures ext in MarkupExtensions ==> ext !in StyleExtensions
  {
  }

  /** `getFileIcon`: the first list holding the extension names the icon.
      Since the lists are disjoint, each icon holds exactly for its own
      list, whatever the order of the checks. */
  function GetFileIcon(fileName: string): (icon: string)
    ensures icon == "code" <==> FileExtension(fileName) in CodeExtensions
    ensures icon == "settings" <==> FileExtension(fileName) in ConfigExtensions
    ensures icon == "file-text" <==> FileExtension(fileName) in MarkupExtensions
    ensures icon == "palette" <==> FileExtension(fileName) in StyleExtensions
    ensures icon == "file" <==> FileExtension(fileName) !in CodeExtensions + ConfigExtensions + MarkupExtensions + StyleExtensions
  {
    var ext := FileExtension(fileName);
    ExtensionListsDisjoint(ext);
    if ext in CodeExtensions then "code"
    else if ext in ConfigExtensions then "settings"
    else if ext in MarkupExtensions then "file-text"
    else if ext in StyleExtensions then "palette"
    else "file"
  }

  /** `isTestableFile`: the same extension test as the code icon. */
  function IsTestableFile(path: string): (b: bool)
    ensures b <==> GetFileIcon(path) == "code"
  {
    FileExtension(path) in CodeExtensions
  }

  /** `formatFileSize` for sizes below 1024 bytes: a missing or zero size is
      `N/A`, any other is the number followed by ` B`. `None` stands for the
      kilobyte and megabyte labels, which are floating point. */
  function FormatFileSize(bytes: Option<int>): (shown: Option<string>)
    ensures shown.None? <==> bytes.Some? && bytes.value >= 1024
    ensures bytes.None? || bytes == Some(0) ==> shown == Some("N/A")
    ensures bytes.Some? && bytes.value != 0 && bytes.value < 1024 ==>
      shown.Some? && EndsWith(shown.value, " B") && shown.value[..|shown.value| - 2] == IntToString(bytes.value)
  {
    if bytes.None? || bytes.value == 0 then Some("N/A")
    else if bytes.value < 1024 then
      var s := IntToString(bytes.value) + " B";
      assert s[|s| - 2..] == " B";
      Some(s)
    else None
  }

  function Max0(n: int): nat {
    if n < 0 then 0 else n
  }

  /** `truncateText`: a text no longer than `maxLength` (or empty) is kept;
      a longer one is cut to its first `maxLength` characters (none when the
      limit is negative) followed by `...`. */
  function TruncateText(text: string, maxLength: int): (r: string)
    ensures text == "" || |text| <= maxLength ==> r == text
    ensures text != "" && |text| > maxLength ==>
      (|r| == Max0(maxLength) + 3 && EndsWith(r, "...") && StartsWith(text, r[..|r| - 3]))
  {
    if text == "" || |text| <= maxLength then text
    else
      var r := text[..Max0(maxLength)] + "...";
      assert r[..|r| - 3] == text[..Max0(maxLength)];
      assert r[|r| - 3..] == "...";
      r
  }

  /** Truncating twice with the same limit changes nothing more. */
  lemma TruncateIdempotent(text: string, maxLength: int)
    ensures TruncateText(TruncateText(text, maxLength), maxLength) == TruncateText(text, maxLength)
  {
    if text != "" && |text| > maxLength {
      var r := TruncateText(text, maxLength);
      assert r[..Max0(maxLength)] == text[..Max0(maxLength)];
    }
  }
}
