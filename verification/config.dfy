/**
  The backend's configuration tables (AI models, supported extensions with
  their frameworks, framework descriptions, excluded path patterns, limits)
  and the lookups over them, all of which fall back to a default rather than
  fail.
*/
module Config {
  import opened Outcome
  import opened Text

  /** An entry of the AI model table; the temperature is kept in tenths. */
  datatype AiModel = AiModel(name: string, maxTokens: nat, temperatureTenths: nat, description: string)

  const AiModels: map<string, AiModel> := map[
    "mistral-7b" := AiModel("mistralai/mistral-7b-instruct", 2000, 7, "Fast and efficient for code analysis"),
    "llama-3-8b" := AiModel("meta-llama/llama-3-8b-instruct", 2000, 7, "Good balance of speed and quality"),
    "claude-haiku" := AiModel("anthropic/claude-3-haiku", 2000, 7, "Excellent for test case generation"),
    "gpt-3.5" := AiModel("openai/gpt-3.5-turbo", 2000, 7, "Reliable and well-tested")
  ]

  const DefaultAiModel: string := "mistral-7b"

  /** An entry of the supported-extension table. */
  datatype LanguageEntry = LanguageEntry(language: string, frameworks: seq<string>, defaultFramework: string)

  const JsFrameworks: seq<string> := ["jest", "selenium-webdriver", "cypress", "playwright"]

  const SupportedExtensions: map<string, LanguageEntry> := map[
    ".py" := LanguageEntry("python", ["pytest", "selenium", "unittest", "behave"], "pytest"),
    ".js" := LanguageEntry("javascript", JsFrameworks, "jest"),
    ".jsx" := LanguageEntry("javascript", JsFrameworks, "jest"),
    ".ts" := LanguageEntry("typescript", JsFrameworks, "jest"),
    ".tsx" := LanguageEntry("typescript", JsFrameworks, "jest"),
    ".java" := LanguageEntry("java", ["junit", "selenium", "testng"], "junit"),
    ".go" := LanguageEntry("go", ["testing", "selenium"], "testing"),
    ".rb" := LanguageEntry("ruby", ["rspec", "selenium"], "rspec"),
    ".php" := LanguageEntry("php", ["phpunit", "selenium"], "phpunit"),
    ".cs" := LanguageEntry("csharp", ["nunit", "selenium"], "nunit"),
    ".swift" := LanguageEntry("swift", ["xctest"], "xctest"),
    ".cpp" := LanguageEntry("cpp", ["gtest"], "gtest"),
    ".c" := LanguageEntry("c", ["unity"], "unity"),
    ".h" := LanguageEntry("c", ["unity"], "unity")
  ]

  /** The entry used for an extension the table does not list. */
  const UnknownLanguage: LanguageEntry := LanguageEntry("unknown", ["generic"], "generic")

  /** An entry of the framework table; `imports` maps a language to its import lines. */
  datatype FrameworkConfig = FrameworkConfig(
    kind: string, description: string, fileExtensions: seq<string>, imports: map<string, seq<string>>)

  const FrameworkConfigs: map<string, FrameworkConfig> := map[
    "selenium" := FrameworkConfig("automation", "Web automation testing with Selenium WebDriver",
      [".py", ".java", ".js", ".ts", ".cs", ".rb"],
      map[
        "python" := ["from selenium import webdriver", "from selenium.webdriver.common.by import By",
                     "from selenium.webdriver.support.ui import WebDriverWait"],
        "java" := ["import org.openqa.selenium.WebDriver;", "import org.openqa.selenium.chrome.ChromeDriver;",
                   "import org.openqa.selenium.By;"],
        "javascript" := ["const { Builder, By, until } = require(\"selenium-webdriver\");"],
        "csharp" := ["using OpenQA.Selenium;", "using OpenQA.Selenium.Chrome;"]
      ]),
    "cypress" := FrameworkConfig("automation", "End-to-end testing with Cypress",
      [".js", ".ts"],
      map[
        "javascript" := ["/// <reference types=\"cypress\" />"],
        "typescript" := ["/// <reference types=\"cypress\" />"]
      ]),
    "playwright" := FrameworkConfig("automation", "Cross-browser automation with Playwright",
      [".js", ".ts", ".py"],
      map[
        "python" := ["from playwright.sync_api import sync_playwright"],
        "javascript" := ["const { test, expect } = require(\"@playwright/test\");"],
        "typescript" := ["import { test, expect } from \"@playwright/test\";"]
      ]),
    "pytest" := FrameworkConfig("unit", "Python unit testing with pytest",
      [".py"],
      map["python" := ["import pytest"]]),
    "jest" := FrameworkConfig("unit", "JavaScript unit testing with Jest",
      [".js", ".jsx", ".ts", ".tsx"],
      map[
        "javascript" := ["const { test, expect } = require(\"@jest/globals\");"],
        "typescript" := ["import { test, expect } from \"@jest/globals\";"]
      ])
  ]

  /** The configuration given for a framework the table does not list. */
  const GenericFramework: FrameworkConfig :=
    FrameworkConfig("generic", "Generic testing framework", [], map[])

  const ExcludedPatterns: seq<string> := [
    "test", "spec", "__pycache__", "node_modules", ".git",
    "dist", "build", "coverage", ".pytest_cache", "target",
    "bin", "obj", ".vscode", ".idea", "vendor"
  ]

  const MaxInputTokens: nat := 24000
  const MaxFilesPerRequest: nat := 5
  const SessionTimeoutHours: nat := 24

  /** The extension of a path as every lookup of the backend computes it: a
      dot followed by the lower-cased text after the last dot, or "" for a
      path without a dot. */
  function Extension(path: string): (e: string)
    ensures '.' !in path ==> e == ""
    ensures '.' in path ==> |e| >= 1 && e[0] == '.' && '.' !in e[1..]
    ensures '.' in path ==>
      |e| <= |path| && path[|path| - |e|] == '.' && e[1..] == Lower(path[|path| - |e| + 1..])
  {
    if '.' in path then
      var suffix := AfterLast(path, '.');
      LowerKeepsChar(suffix, '.');
      AfterLastFollows(path, '.');
      var e := "." + Lower(suffix);
      assert e[1..] == Lower(suffix);
      e
    else ""
  }

  /** The model a request names, or the default model when the key is absent,
      empty or unknown. */
  function GetAiModelConfig(key: Option<string>): (m: AiModel)
    ensures m in AiModels.Values
    ensures key.Some? && key.value in AiModels ==> m == AiModels[key.value]
    ensures key.None? || key.value !in AiModels ==> m == AiModels[DefaultAiModel]
  {
    var k := if key.None? || key.value == "" || key.value !in AiModels then DefaultAiModel else key.value;
    AiModels[k]
  }

  /** Every table entry's default framework is one of its frameworks. */
  lemma DefaultsAreAvailable()
    ensures forall ext :: ext in SupportedExtensions ==>
      SupportedExtensions[ext].defaultFramework in SupportedExtensions[ext].frameworks
    ensures UnknownLanguage.defaultFramework in UnknownLanguage.frameworks
  {
  }

  /** The table entry for a path's extension, or the unknown entry. */
  function LanguageEntryOf(path: string): (entry: LanguageEntry)
    ensures entry.defaultFramework in entry.frameworks
    ensures Extension(path) !in SupportedExtensions ==> entry == UnknownLanguage
    ensures Extension(path) in SupportedExtensions ==> entry == SupportedExtensions[Extension(path)]
  {
    DefaultsAreAvailable();
    var ext := Extension(path);
    if ext in SupportedExtensions then SupportedExtensions[ext] else UnknownLanguage
  }

  /** What `get_language_config` returns for a path. */
  datatype LanguageConfig = LanguageConfig(language: string, framework: string, availableFrameworks: seq<string>)

  function GetLanguageConfig(path: string): (c: LanguageConfig)
    ensures c.framework in c.availableFrameworks
    ensures c.language == "unknown" <==> Extension(path) !in SupportedExtensions
    ensures '.' !in path ==> c == LanguageConfig("unknown", "generic", ["generic"])
    ensures var ext := Extension(path);
      ext in SupportedExtensions ==>
        c == LanguageConfig(SupportedExtensions[ext].language, SupportedExtensions[ext].defaultFramework,
                            SupportedExtensions[ext].frameworks)
    ensures Extension(path) !in SupportedExtensions ==> c == LanguageConfig("unknown", "generic", ["generic"])
  {
    var entry := LanguageEntryOf(path);
    LanguageConfig(entry.language, entry.defaultFramework, entry.frameworks)
  }

  /** The frameworks offered for a path: never empty, and always the list
      `GetLanguageConfig` reports for the same path. */
  function GetAvailableFrameworks(path: string): (fs: seq<string>)
    ensures |fs| >= 1
    ensures fs == GetLanguageConfig(path).availableFrameworks
    ensures GetLanguageConfig(path).framework in fs
    ensures Extension(path) in SupportedExtensions ==> fs == SupportedExtensions[Extension(path)].frameworks
    ensures Extension(path) !in SupportedExtensions ==> fs == ["generic"]
  {
    var ext := Extension(path);
    if ext in SupportedExtensions then SupportedExtensions[ext].frameworks else ["generic"]
  }

  /** The table entry for a framework, or the generic configuration with no
      extensions and no imports. */
  function GetFrameworkConfig(framework: string): (c: FrameworkConfig)
    ensures framework in FrameworkConfigs ==> c == FrameworkConfigs[framework]
    ensures framework !in FrameworkConfigs ==> c.kind == "generic" && c.fileExtensions == [] && c.imports == map[]
    ensures c.kind == "generic" <==> framework !in FrameworkConfigs
  {
    if framework in FrameworkConfigs then FrameworkConfigs[framework] else GenericFramework
  }

  /** A file is supported exactly when its extension is listed, which is
      exactly when its language is known. */
  function IsSupportedFile(path: string): (b: bool)
    ensures b <==> GetLanguageConfig(path).language != "unknown"
    ensures '.' !in path ==> !b
  {
    Extension(path) in SupportedExtensions
  }

  /** A file named `*.{ext}` is supported, and its language lists `framework`. */
  predicate LanguageUses(ext: string, framework: string) {
    "." + ext in SupportedExtensions && framework in SupportedExtensions["." + ext].frameworks
  }

  /** Python lists pytest and selenium. */
  lemma PythonUses()
    ensures LanguageUses("py", "pytest") && LanguageUses("py", "selenium")
  {
    assert "." + "py" == ".py";
  }

  /** JavaScript lists jest, playwright and cypress. */
  lemma JavaScriptUses()
    ensures LanguageUses("js", "jest") && LanguageUses("js", "playwright") && LanguageUses("js", "cypress")
  {
    assert "." + "js" == ".js";
    assert JsFrameworks[0] == "jest" && JsFrameworks[2] == "cypress" && JsFrameworks[3] == "playwright";
  }

  /** TypeScript lists jest and playwright. */
  lemma TypeScriptUses()
    ensures LanguageUses("ts", "jest") && LanguageUses("ts", "playwright")
  {
    assert "." + "ts" == ".ts";
    assert JsFrameworks[0] == "jest" && JsFrameworks[3] == "playwright";
  }

  /** Java lists junit, Go its `testing` package and Ruby rspec. */
  lemma JavaGoRubyUse()
    ensures LanguageUses("java", "junit") && LanguageUses("go", "testing") && LanguageUses("rb", "rspec")
  {
    assert "." + "java" == ".java" && "." + "go" == ".go" && "." + "rb" == ".rb";
  }

  /** A path is excluded when one of the listed patterns occurs in its
      lower-cased form; so a path naming tests in any case is excluded. */
  function ShouldExcludeFile(path: string): (b: bool)
    ensures b <==> exists p :: p in ExcludedPatterns && Contains(Lower(path), p)
    ensures Contains(Lower(path), "test") || Contains(Lower(path), "node_modules") ==> b
  {
    assert ExcludedPatterns[0] == "test" && ExcludedPatterns[3] == "node_modules";
    exists k :: 0 <= k < |ExcludedPatterns| && Contains(Lower(path), ExcludedPatterns[k])
  }

  /** Exclusion does not depend on case: a path and its lower-cased form are
      excluded together. */
  lemma ExclusionIgnoresCase(path: string)
    ensures ShouldExcludeFile(Lower(path)) <==> ShouldExcludeFile(path)
  {
    LowerIdempotent(path);
  }

  /** Every path that mentions `test` in any case is excluded. */
  lemma TestPathsExcluded(path: string)
    requires Contains(Lower(path), "test")
    ensures ShouldExcludeFile(path)
  {
    assert ExcludedPatterns[0] == "test";
  }
}
