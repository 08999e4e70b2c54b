/**
  The backend's text helpers: token estimation and content truncation,
  cleaning and parsing of an AI answer into suggestions, test file names,
  branch-name cleaning, commit messages, fenced-code extraction and path
  sanitising.
*/
module Utils {
  import opened Outcome
  import opened Text

  // ---------------------------------------------------------------------
  // Token estimation and truncation
  // ---------------------------------------------------------------------

  /** About four characters per token, rounded down. */
  function EstimateTokenCount(text: string): (n: nat)
    ensures 4 * n <= |text| < 4 * n + 4
  {
    |text| / 4
  }

  /** Python's `int(x)` on a quotient: division truncating toward zero. */
  function TruncDiv(a: int, b: int): (q: int)
    requires b > 0
    ensures a >= 0 ==> q == a / b
    ensures a < 0 ==> q == -((-a) / b)
  {
    if a >= 0 then a / b else -((-a) / b)
  }

  /** Python's `s[:n]`, where a negative `n` counts from the end. */
  function PySliceTo(s: string, n: int): (r: string)
    ensures StartsWith(s, r)
    ensures 0 <= n <= |s| ==> |r| == n
    ensures n < 0 ==> |r| == if |s| + n < 0 then 0 else |s| + n
  {
    if n >= 0 then (if n <= |s| then s[..n] else s)
    else if |s| + n < 0 then [] else s[..|s| + n]
  }

  /** Python's `s[-m:]` for a positive `m`: the last `m` characters, or all. */
  function PyLast(s: string, m: nat): (r: string)
    ensures EndsWith(s, r)
    ensures |r| == if m <= |s| then m else |s|
  {
    if m <= |s| then s[|s| - m..] else s
  }

  const TruncationMarker: string := "\n\n... [CONTENT TRUNCATED] ...\n\n"

  /** `int(chars_limit * 0.8)` and `int(chars_limit * 0.2)` with
      `chars_limit = 4 * maxTokens`, computed exactly in integers. */
  function FirstPartLimit(maxTokens: int): int {
    TruncDiv(4 * maxTokens * 8, 10)
  }

  function LastPartLimit(maxTokens: int): int {
    TruncDiv(4 * maxTokens * 2, 10)
  }

  /** For a non-negative budget the head and the tail share out at most the
      budget's characters; for a negative one there is no tail. */
  lemma BudgetSplit(maxTokens: int)
    ensures maxTokens >= 0 ==>
      0 <= FirstPartLimit(maxTokens) && 0 <= LastPartLimit(maxTokens)
      && FirstPartLimit(maxTokens) + LastPartLimit(maxTokens) <= 4 * maxTokens
    ensures maxTokens < 0 ==> LastPartLimit(maxTokens) <= 0
  {
    var m := 4 * maxTokens;
    if maxTokens >= 0 {
      var a := FirstPartLimit(maxTokens);
      var b := LastPartLimit(maxTokens);
      assert a * 10 <= m * 8 && b * 10 <= m * 2;
    }
  }

  /** `truncate_content_if_needed`: content within the token budget is kept;
      longer content keeps a head and a tail around a fixed marker. For a
      non-negative budget the head and tail do not overlap and the result is
      bounded by the budget whatever the input's length. */
  function TruncateContentIfNeeded(content: string, maxTokens: int): (r: string)
    ensures EstimateTokenCount(content) <= maxTokens ==> r == content
    ensures EstimateTokenCount(content) > maxTokens && maxTokens >= 0 ==>
      var head := FirstPartLimit(maxTokens);
      var tail := LastPartLimit(maxTokens);
      0 <= head && 0 <= tail && head + tail <= 4 * maxTokens < |content|
      && r == content[..head] + TruncationMarker + content[|content| - tail..]
      && |r| <= 4 * maxTokens + |TruncationMarker|
    ensures EstimateTokenCount(content) > maxTokens && maxTokens < 0 ==>
      r == PySliceTo(content, FirstPartLimit(maxTokens)) + TruncationMarker
  {
    if EstimateTokenCount(content) > maxTokens then
      BudgetSplit(maxTokens);
      var first := PySliceTo(content, FirstPartLimit(maxTokens));
      var last := if LastPartLimit(maxTokens) > 0 then PyLast(content, LastPartLimit(maxTokens)) else "";
      first + TruncationMarker + last
    else content
  }

  // ---------------------------------------------------------------------
  // Cleaning an AI answer
  // ---------------------------------------------------------------------

  const ResponsePrefixes: seq<string> := [
    "Here are the test case suggestions:",
    "Here are some test cases:",
    "Test case suggestions:",
    "I'll suggest the following test cases:"
  ]

  const ResponseSuffixes: seq<string> := [
    "These test cases should provide good coverage",
    "Let me know if you need more test cases",
    "Hope this helps!"
  ]

  /** One prefix pass: a case-insensitive match is cut off and the rest stripped. */
  function DropPrefix(s: string, prefix: string): (r: string)
    ensures |r| <= |s|
    ensures Stripped(s) ==> Stripped(r)
    ensures !StartsWith(Lower(s), Lower(prefix)) ==> r == s
    ensures StartsWith(Lower(s), Lower(prefix)) ==> r == Strip(s[|prefix|..])
  {
    if StartsWith(Lower(s), Lower(prefix)) then Strip(s[|prefix|..]) else s
  }

  /** One suffix pass, symmetric to `DropPrefix`. */
  function DropSuffix(s: string, suffix: string): (r: string)
    ensures |r| <= |s|
    ensures Stripped(s) ==> Stripped(r)
    ensures !EndsWith(Lower(s), Lower(suffix)) ==> r == s
    ensures EndsWith(Lower(s), Lower(suffix)) ==> r == Strip(s[..|s| - |suffix|])
  {
    if EndsWith(Lower(s), Lower(suffix)) then Strip(s[..|s| - |suffix|]) else s
  }

  /** The prefixes tried in list order, each at most once. */
  function PrefixPasses(s: string, prefixes: seq<string>): (r: string)
    ensures |r| <= |s|
    ensures Stripped(s) ==> Stripped(r)
  {
    if prefixes == [] then s
    else DropPrefix(PrefixPasses(s, prefixes[..|prefixes| - 1]), prefixes[|prefixes| - 1])
  }

  /** The suffixes tried in list order, each at most once. */
  function SuffixPasses(s: string, suffixes: seq<string>): (r: string)
    ensures |r| <= |s|
    ensures Stripped(s) ==> Stripped(r)
  {
    if suffixes == [] then s
    else DropSuffix(SuffixPasses(s, suffixes[..|suffixes| - 1]), suffixes[|suffixes| - 1])
  }

  /** What `clean_ai_response` returns. */
  function CleanedResponse(response: string): (r: string)
    ensures Stripped(r) && |r| <= |response|
  {
    SuffixPasses(PrefixPasses(Strip(response), ResponsePrefixes), ResponseSuffixes)
  }

  /** The prefix loop of `clean_ai_response` over a list of prefixes. */
  method DropPrefixes(s: string, prefixes: seq<string>) returns (cleaned: string)
    ensures cleaned == PrefixPasses(s, prefixes)
  {
    cleaned := s;
    for k := 0 to |prefixes|
      invariant cleaned == PrefixPasses(s, prefixes[..k])
    {
      PrefixPassesSnoc(s, prefixes, k);
      var prefix := prefixes[k];
      if StartsWith(Lower(cleaned), Lower(prefix)) {
        cleaned := Strip(cleaned[|prefix|..]);
      }
    }
    assert prefixes[..|prefixes|] == prefixes;
  }

  /** The suffix loop of `clean_ai_response` over a list of suffixes. */
  method DropSuffixes(s: string, suffixes: seq<string>) returns (cleaned: string)
    ensures cleaned == SuffixPasses(s, suffixes)
  {
    cleaned := s;
    for k := 0 to |suffixes|
      invariant cleaned == SuffixPasses(s, suffixes[..k])
    {
      SuffixPassesSnoc(s, suffixes, k);
      var suffix := suffixes[k];
      if EndsWith(Lower(cleaned), Lower(suffix)) {
        var kept := cleaned[..|cleaned| - |suffix|];
        assert DropSuffix(cleaned, suffix) == Strip(kept);
        cleaned := Strip(kept);
      }
    }
    assert suffixes[..|suffixes|] == suffixes;
  }

  lemma PrefixPassesSnoc(s: string, prefixes: seq<string>, k: nat)
    requires k < |prefixes|
    ensures PrefixPasses(s, prefixes[..k + 1]) == DropPrefix(PrefixPasses(s, prefixes[..k]), prefixes[k])
  {
    assert prefixes[..k + 1][..k] == prefixes[..k];
  }

  lemma SuffixPassesSnoc(s: string, suffixes: seq<string>, k: nat)
    requires k < |suffixes|
    ensures SuffixPasses(s, suffixes[..k + 1]) == DropSuffix(SuffixPasses(s, suffixes[..k]), suffixes[k])
  {
    assert suffixes[..k + 1][..k] == suffixes[..k];
  }

  /** `clean_ai_response`: strip, then the prefix loop, then the suffix loop. */
  method CleanAiResponse(response: string) returns (cleaned: string)
    ensures cleaned == CleanedResponse(response)
    ensures Stripped(cleaned) && |cleaned| <= |response|
  {
    cleaned := Strip(response);
    cleaned := DropPrefixes(cleaned, ResponsePrefixes);
    cleaned := DropSuffixes(cleaned, ResponseSuffixes);
  }

  lemma {:induction false} PrefixPassesKeep(s: string, prefixes: seq<string>)
    requires forall k :: 0 <= k < |prefixes| ==> !StartsWith(Lower(s), Lower(prefixes[k]))
    ensures PrefixPasses(s, prefixes) == s
  {
    if prefixes != [] {
      PrefixPassesKeep(s, prefixes[..|prefixes| - 1]);
    }
  }

  lemma {:induction false} SuffixPassesKeep(s: string, suffixes: seq<string>)
    requires forall k :: 0 <= k < |suffixes| ==> !EndsWith(Lower(s), Lower(suffixes[k]))
    ensures SuffixPasses(s, suffixes) == s
  {
    if suffixes != [] {
      SuffixPassesKeep(s, suffixes[..|suffixes| - 1]);
    }
  }

  /** Trying two lists of prefixes one after the other is trying their concatenation. */
  lemma {:induction false} PrefixPassesAppend(s: string, a: seq<string>, b: seq<string>)
    ensures PrefixPasses(s, a + b) == PrefixPasses(PrefixPasses(s, a), b)
    decreases |b|
  {
    if b == [] {
      assert a + b == a;
    } else {
      var n := |b| - 1;
      assert (a + b)[..|a + b| - 1] == a + b[..n];
      PrefixPassesAppend(s, a, b[..n]);
    }
  }

  /** Trying two lists of suffixes one after the other is trying their concatenation. */
  lemma {:induction false} SuffixPassesAppend(s: string, a: seq<string>, b: seq<string>)
    ensures SuffixPasses(s, a + b) == SuffixPasses(SuffixPasses(s, a), b)
    decreases |b|
  {
    if b == [] {
      assert a + b == a;
    } else {
      var n := |b| - 1;
      assert (a + b)[..|a + b| - 1] == a + b[..n];
      SuffixPassesAppend(s, a, b[..n]);
    }
  }

  /** Stripping whitespace in front of a stripped text gives the text. */
  lemma StripLeadingGap(gap: string, body: string)
    requires forall i :: 0 <= i < |gap| ==> IsSpace(gap[i])
    requires body != [] && Stripped(body)
    ensures Strip(gap + body) == body
  {
    var s := gap + body;
    assert forall i :: 0 <= i < |gap| ==> IsSpace(s[i]);
    assert !IsSpace(s[|gap|]);
    var l := LStrip(s);
    assert |l| == |body|;
    assert l == body;
    assert !IsSpace(l[|l| - 1]);
  }

  /** Stripping whitespace after a stripped text gives the text. */
  lemma StripTrailingGap(body: string, gap: string)
    requires forall i :: 0 <= i < |gap| ==> IsSpace(gap[i])
    requires body != [] && Stripped(body)
    ensures Strip(body + gap) == body
  {
    var s := body + gap;
    assert !IsSpace(s[0]);
    assert LStrip(s) == s;
    assert forall i :: |body| <= i < |s| ==> IsSpace(s[i]);
    assert !IsSpace(s[|body| - 1]);
    var r := RStrip(s);
    assert |r| == |body|;
    assert r == body;
  }

  /** A text that starts with the listed prefix `k` does not start with an
      earlier one, in any case: the prefixes part within their own text. */
  lemma EarlierPrefixesMiss(s: string, k: nat, j: nat)
    requires j < k < |ResponsePrefixes| && StartsWith(s, ResponsePrefixes[k])
    ensures !StartsWith(Lower(s), Lower(ResponsePrefixes[j]))
  {
    var d := if k == 1 then 9 else 0;
    var p := ResponsePrefixes[j];
    assert s[d] == s[..|ResponsePrefixes[k]|][d] == ResponsePrefixes[k][d];
    assert LowerChar(s[d]) != LowerChar(p[d]);
    var l := Lower(s);
    assert l[d] != Lower(p)[d];
    assert |p| <= |l| ==> l[..|p|][d] == l[d];
  }

  /** A text that ends with the listed suffix `k` does not end with an
      earlier one, in any case: their last characters differ. */
  lemma EarlierSuffixesMiss(s: string, k: nat, j: nat)
    requires j < k < |ResponseSuffixes| && EndsWith(s, ResponseSuffixes[k])
    ensures !EndsWith(Lower(s), Lower(ResponseSuffixes[j]))
  {
    var q := ResponseSuffixes[k];
    var p := ResponseSuffixes[j];
    assert s[|s| - 1] == s[|s| - |q|..][|q| - 1] == q[|q| - 1];
    assert LowerChar(s[|s| - 1]) != LowerChar(p[|p| - 1]);
    var l := Lower(s);
    assert l[|l| - 1] != Lower(p)[|p| - 1];
    assert |p| <= |l| ==> l[|l| - |p|..][|p| - 1] == l[|l| - 1];
  }

  /** The answer is stripped and carries none of the listed prefixes and
      suffixes, in any case. */
  ghost predicate CleanAnswer(s: string) {
    Stripped(s)
    && (forall k :: 0 <= k < |ResponsePrefixes| ==> !StartsWith(Lower(s), Lower(ResponsePrefixes[k])))
    && (forall k :: 0 <= k < |ResponseSuffixes| ==> !EndsWith(Lower(s), Lower(ResponseSuffixes[k])))
  }

  /** Lower-casing keeps a prefix a prefix, and a suffix a suffix. */
  lemma LowerKeepsAffixes(s: string, t: string)
    ensures StartsWith(s, t) ==> StartsWith(Lower(s), Lower(t))
    ensures EndsWith(s, t) ==> EndsWith(Lower(s), Lower(t))
  {
    if |t| <= |s| {
      assert s[..|t|] == t ==> Lower(s)[..|t|] == Lower(t);
      assert s[|s| - |t|..] == t ==> Lower(s)[|s| - |t|..] == Lower(t);
    }
  }

  /** The passes up to and including the first matching entry `k`. */
  lemma PrefixPassesUpTo(s: string, prefixes: seq<string>, k: nat)
    requires k < |prefixes| && StartsWith(s, prefixes[k])
    requires forall j :: 0 <= j < k ==> !StartsWith(Lower(s), Lower(prefixes[j]))
    ensures PrefixPasses(s, prefixes[..k + 1]) == Strip(s[|prefixes[k]|..])
  {
    var before := prefixes[..k];
    assert prefixes[..k + 1][..k] == before;
    assert forall j :: 0 <= j < |before| ==> before[j] == prefixes[j];
    PrefixPassesKeep(s, before);
    LowerKeepsAffixes(s, prefixes[k]);
  }

  /** When the answer starts with prefix `k` and with no earlier one, the
      prefix passes cut that prefix and strip, and the later prefixes are
      tried on what is left. */
  lemma PrefixPassesAt(s: string, prefixes: seq<string>, k: nat)
    requires k < |prefixes| && StartsWith(s, prefixes[k])
    requires forall j :: 0 <= j < k ==> !StartsWith(Lower(s), Lower(prefixes[j]))
    ensures PrefixPasses(s, prefixes) == PrefixPasses(Strip(s[|prefixes[k]|..]), prefixes[k + 1..])
  {
    var before, after := prefixes[..k + 1], prefixes[k + 1..];
    assert before + after == prefixes;
    PrefixPassesUpTo(s, prefixes, k);
    PrefixPassesAppend(s, before, after);
  }

  /** The passes up to and including the first matching entry `k`. */
  lemma SuffixPassesUpTo(s: string, suffixes: seq<string>, k: nat)
    requires k < |suffixes| && EndsWith(s, suffixes[k])
    requires forall j :: 0 <= j < k ==> !EndsWith(Lower(s), Lower(suffixes[j]))
    ensures SuffixPasses(s, suffixes[..k + 1]) == Strip(s[..|s| - |suffixes[k]|])
  {
    var before := suffixes[..k];
    assert suffixes[..k + 1][..k] == before;
    assert forall j :: 0 <= j < |before| ==> before[j] == suffixes[j];
    SuffixPassesKeep(s, before);
    LowerKeepsAffixes(s, suffixes[k]);
  }

  /** The mirror image of `PrefixPassesAt` for the suffix passes. */
  lemma SuffixPassesAt(s: string, suffixes: seq<string>, k: nat)
    requires k < |suffixes| && EndsWith(s, suffixes[k])
    requires forall j :: 0 <= j < k ==> !EndsWith(Lower(s), Lower(suffixes[j]))
    ensures SuffixPasses(s, suffixes) == SuffixPasses(Strip(s[..|s| - |suffixes[k]|]), suffixes[k + 1..])
  {
    var before, after := suffixes[..k + 1], suffixes[k + 1..];
    assert before + after == suffixes;
    SuffixPassesUpTo(s, suffixes, k);
    SuffixPassesAppend(s, before, after);
  }

  /** Every listed prefix and suffix is non-empty and begins and ends with
      a non-space character. */
  lemma ListedAffixesShape()
    ensures forall k :: 0 <= k < |ResponsePrefixes| ==>
      ResponsePrefixes[k] != [] && !IsSpace(ResponsePrefixes[k][0])
    ensures forall k :: 0 <= k < |ResponseSuffixes| ==>
      ResponseSuffixes[k] != [] && !IsSpace(ResponseSuffixes[k][|ResponseSuffixes[k]| - 1])
  {
  }

  /** Where the three parts of `p + gap + body` sit. */
  lemma ThreeParts(p: string, gap: string, body: string)
    requires p != [] && body != []
    ensures var s := p + gap + body;
      s[0] == p[0] && s[|s| - 1] == body[|body| - 1]
      && s[..|p|] == p && s[|p|..] == gap + body
      && s[..|p + gap|] == p + gap && s[|s| - |body|..] == body
  {
  }

  /** The prefix passes on a text that starts with entry `k`, when no
      earlier entry matches the text and no later one matches what is left. */
  lemma PrefixStage(prefixes: seq<string>, k: nat, s: string, rest: string)
    requires k < |prefixes| && StartsWith(s, prefixes[k]) && rest == Strip(s[|prefixes[k]|..])
    requires forall j :: 0 <= j < k ==> !StartsWith(Lower(s), Lower(prefixes[j]))
    requires forall j :: k < j < |prefixes| ==> !StartsWith(Lower(rest), Lower(prefixes[j]))
    ensures PrefixPasses(s, prefixes) == rest
  {
    PrefixPassesAt(s, prefixes, k);
    var after := prefixes[k + 1..];
    assert forall j :: 0 <= j < |after| ==> after[j] == prefixes[k + 1 + j];
    PrefixPassesKeep(rest, after);
  }

  /** The suffix passes on a text that ends with entry `k`, when no earlier
      entry matches the text and no later one matches what is left. */
  lemma SuffixStage(suffixes: seq<string>, k: nat, s: string, rest: string)
    requires k < |suffixes| && EndsWith(s, suffixes[k]) && rest == Strip(s[..|s| - |suffixes[k]|])
    requires forall j :: 0 <= j < k ==> !EndsWith(Lower(s), Lower(suffixes[j]))
    requires forall j :: k < j < |suffixes| ==> !EndsWith(Lower(rest), Lower(suffixes[j]))
    ensures SuffixPasses(s, suffixes) == rest
  {
    SuffixPassesAt(s, suffixes, k);
    var after := suffixes[k + 1..];
    assert forall j :: 0 <= j < |after| ==> after[j] == suffixes[k + 1 + j];
    SuffixPassesKeep(rest, after);
  }

  /** The cleaning passes over any lists: a text made of entry `k` of the
      prefix list, whitespace and a stripped body is cut down to the body
      when no earlier prefix matches the text and no other entry matches the
      body. */
  lemma PrefixRemovedFrom(prefixes: seq<string>, suffixes: seq<string>, k: nat, gap: string, body: string)
    requires k < |prefixes| && prefixes[k] != [] && !IsSpace(prefixes[k][0])
    requires forall i :: 0 <= i < |gap| ==> IsSpace(gap[i])
    requires body != [] && Stripped(body)
    requires forall j :: 0 <= j < k ==> !StartsWith(Lower(prefixes[k] + gap + body), Lower(prefixes[j]))
    requires forall j :: k < j < |prefixes| ==> !StartsWith(Lower(body), Lower(prefixes[j]))
    requires forall j :: 0 <= j < |suffixes| ==> !EndsWith(Lower(body), Lower(suffixes[j]))
    ensures SuffixPasses(PrefixPasses(Strip(prefixes[k] + gap + body), prefixes), suffixes) == body
  {
    var p := prefixes[k];
    var s := p + gap + body;
    ThreeParts(p, gap, body);
    assert Strip(s) == s;
    StripLeadingGap(gap, body);
    PrefixStage(prefixes, k, s, body);
    SuffixPassesKeep(body, suffixes);
  }

  /** The cleaning passes over any lists: a stripped body, whitespace and
      entry `k` of the suffix list is cut down to the body when no prefix
      matches the text, no earlier suffix matches it and no later suffix
      matches the body. */
  lemma SuffixRemovedFrom(prefixes: seq<string>, suffixes: seq<string>, k: nat, gap: string, body: string)
    requires k < |suffixes| && suffixes[k] != [] && !IsSpace(suffixes[k][|suffixes[k]| - 1])
    requires forall i :: 0 <= i < |gap| ==> IsSpace(gap[i])
    requires body != [] && Stripped(body)
    requires forall j :: 0 <= j < |prefixes| ==> !StartsWith(Lower(body + gap + suffixes[k]), Lower(prefixes[j]))
    requires forall j :: 0 <= j < k ==> !EndsWith(Lower(body + gap + suffixes[k]), Lower(suffixes[j]))
    requires forall j :: k < j < |suffixes| ==> !EndsWith(Lower(body), Lower(suffixes[j]))
    ensures SuffixPasses(PrefixPasses(Strip(body + gap + suffixes[k]), prefixes), suffixes) == body
  {
    var q := suffixes[k];
    var s := body + gap + q;
    ThreeParts(body, gap, q);
    assert Strip(s) == s;
    PrefixPassesKeep(s, prefixes);
    StripTrailingGap(body, gap);
    SuffixStage(suffixes, k, s, body);
  }

  /** A listed prefix, whitespace and a clean answer: cleaning gives the
      clean answer. */
  lemma ListedPrefixRemoved(k: nat, gap: string, body: string)
    requires k < |ResponsePrefixes|
    requires forall i :: 0 <= i < |gap| ==> IsSpace(gap[i])
    requires body != [] && CleanAnswer(body)
    ensures CleanedResponse(ResponsePrefixes[k] + gap + body) == body
  {
    var s := ResponsePrefixes[k] + gap + body;
    assert s[..|ResponsePrefixes[k]|] == ResponsePrefixes[k];
    forall j | 0 <= j < k
      ensures !StartsWith(Lower(s), Lower(ResponsePrefixes[j]))
    {
      EarlierPrefixesMiss(s, k, j);
    }
    ListedAffixesShape();
    PrefixRemovedFrom(ResponsePrefixes, ResponseSuffixes, k, gap, body);
  }

  /** A clean answer, then whitespace, then a listed suffix: cleaning gives
      the clean answer, provided the whole text does not begin with a listed
      prefix (the prefix passes look at the whole answer first). */
  lemma ListedSuffixRemoved(k: nat, gap: string, body: string)
    requires k < |ResponseSuffixes|
    requires forall i :: 0 <= i < |gap| ==> IsSpace(gap[i])
    requires body != [] && CleanAnswer(body)
    requires forall j :: 0 <= j < |ResponsePrefixes| ==>
      !StartsWith(Lower(body + gap + ResponseSuffixes[k]), Lower(ResponsePrefixes[j]))
    ensures CleanedResponse(body + gap + ResponseSuffixes[k]) == body
  {
    var s := body + gap + ResponseSuffixes[k];
    assert s[|s| - |ResponseSuffixes[k]|..] == ResponseSuffixes[k];
    forall j | 0 <= j < k
      ensures !EndsWith(Lower(s), Lower(ResponseSuffixes[j]))
    {
      EarlierSuffixesMiss(s, k, j);
    }
    ListedAffixesShape();
    SuffixRemovedFrom(ResponsePrefixes, ResponseSuffixes, k, gap, body);
  }

  /** An answer that is already stripped and carries none of the listed
      prefixes and suffixes, in any case, comes back unchanged. */
  lemma CleanKeepsCleanAnswer(s: string)
    requires Stripped(s)
    requires forall k :: 0 <= k < |ResponsePrefixes| ==> !StartsWith(Lower(s), Lower(ResponsePrefixes[k]))
    requires forall k :: 0 <= k < |ResponseSuffixes| ==> !EndsWith(Lower(s), Lower(ResponseSuffixes[k]))
    ensures CleanedResponse(s) == s
  {
    PrefixPassesKeep(s, ResponsePrefixes);
    SuffixPassesKeep(s, ResponseSuffixes);
  }

  // ---------------------------------------------------------------------
  // Parsing an AI answer into suggestions
  // ---------------------------------------------------------------------

  /** The length of the leading run of characters satisfying the class. */
  function DigitRun(s: string): (n: nat)
    ensures n <= |s|
    ensures forall i :: 0 <= i < n ==> IsDigit(s[i])
    ensures n == |s| || !IsDigit(s[n])
  {
    if s != [] && IsDigit(s[0]) then 1 + DigitRun(s[1..]) else 0
  }

  function SpaceRun(s: string): (n: nat)
    ensures n <= |s|
    ensures forall i :: 0 <= i < n ==> IsSpace(s[i])
    ensures n == |s| || !IsSpace(s[n])
  {
    if s != [] && IsSpace(s[0]) then 1 + SpaceRun(s[1..]) else 0
  }

  /** The length matched by `^\d+\.?\s+`, if it matches. */
  function NumberMarker(line: string): (m: Option<nat>)
    ensures m.Some? ==> 0 < m.value <= |line| && IsDigit(line[0])
  {
    var d := DigitRun(line);
    if d == 0 then None
    else
      var j := if d < |line| && line[d] == '.' then d + 1 else d;
      var w := SpaceRun(line[j..]);
      if w == 0 then None else Some(j + w)
  }

  const Bullet: char := '•'

  /** The length matched by `^[-•]\s+`, if it matches. */
  function BulletMarker(line: string): (m: Option<nat>)
    ensures m.Some? ==> 1 < m.value <= |line| && (line[0] == '-' || line[0] == Bullet)
  {
    if line != [] && (line[0] == '-' || line[0] == Bullet) && SpaceRun(line[1..]) > 0
    then Some(1 + SpaceRun(line[1..]))
    else None
  }

  /** A numbered or bulleted line starts a new suggestion. */
  predicate StartsItem(line: string) {
    NumberMarker(line).Some? || StartsWith(line, "-") || StartsWith(line, [Bullet])
  }

  /** The line without its numbering or bullet (`re.sub` of the two anchored
      alternatives, the first tried first). */
  function WithoutMarker(line: string): (r: string)
    ensures EndsWith(line, r)
    ensures NumberMarker(line).None? && BulletMarker(line).None? ==> r == line
  {
    match NumberMarker(line)
    case Some(n) => line[n..]
    case None =>
      match BulletMarker(line)
      case Some(n) => line[n..]
      case None => line
  }

  /** The text after a number, an optional dot and spaces is what remains. */
  lemma NumberedLineMarker(number: nat, text: string)
    requires text != [] && !IsSpace(text[0])
    ensures NumberMarker(NatToString(number) + ". " + text).Some?
    ensures WithoutMarker(NatToString(number) + ". " + text) == text
  {
    var digits := NatToString(number);
    var line := digits + ". " + text;
    assert DigitRun(line) == |digits| by {
      var d := DigitRun(line);
      assert forall i :: 0 <= i < |digits| ==> line[i] == digits[i];
      assert line[|digits|] == '.';
    }
    assert line[|digits| + 1..] == " " + text;
    assert SpaceRun(" " + text) == 1 by {
      assert (" " + text)[1] == text[0];
    }
    assert line[|digits| + 2..] == text;
  }

  /** The parse so far: finished suggestions and the one being assembled. */
  datatype ParseState = ParseState(done: seq<string>, current: string)

  /** `done` plus the current suggestion, if any, stripped. */
  function Flushed(st: ParseState): (r: seq<string>)
    ensures |r| <= |st.done| + 1
  {
    st.done + (if st.current != "" then [Strip(st.current)] else [])
  }

  /** One line of the loop of `parse_test_suggestions`. */
  function ParseStep(st: ParseState, raw: string): ParseState {
    var line := Strip(raw);
    if line == "" then st
    else if StartsItem(line) then ParseState(Flushed(st), WithoutMarker(line))
    else if st.current != "" then ParseState(st.done, st.current + " " + line)
    else ParseState(st.done, line)
  }

  /** The state after a sequence of lines. */
  function ParseLines(lines: seq<string>): (st: ParseState)
    ensures |Flushed(st)| <= |lines|
    ensures forall x :: x in Flushed(st) ==> Stripped(x)
  {
    if lines == [] then ParseState([], "")
    else ParseStep(ParseLines(lines[..|lines| - 1]), lines[|lines| - 1])
  }

  lemma ParseLinesSnoc(lines: seq<string>, k: nat)
    requires k < |lines|
    ensures ParseLines(lines[..k + 1]) == ParseStep(ParseLines(lines[..k]), lines[k])
  {
    assert lines[..k + 1][..k] == lines[..k];
  }

  /** A line numbered `n. ` on its own starts a suggestion holding exactly its text. */
  lemma NumberedLineParses(number: nat, text: string)
    requires text != [] && Stripped(text)
    ensures ParseLines([NatToString(number) + ". " + text]) == ParseState([], text)
    ensures Flushed(ParseLines([NatToString(number) + ". " + text])) == [text]
  {
    var line := NatToString(number) + ". " + text;
    NumberedLineMarker(number, text);
    assert Stripped(line);
    ParseLinesSnoc([line], 0);
    assert [line][..0] == [];
  }

  /** A line that starts no item continues the current one, joined by a space. */
  lemma ContinuationLineJoins(number: nat, text: string, more: string)
    requires text != [] && Stripped(text)
    requires more != [] && Stripped(more) && !StartsItem(more)
    ensures Flushed(ParseLines([NatToString(number) + ". " + text, more])) == [text + " " + more]
  {
    var line := NatToString(number) + ". " + text;
    NumberedLineParses(number, text);
    ParseTwo(line, more);
    ContinuationStep(text, more);
  }

  lemma ParseTwo(first: string, second: string)
    ensures ParseLines([first, second]) == ParseStep(ParseLines([first]), second)
  {
    ParseLinesSnoc([first, second], 1);
    assert [first, second][..1] == [first];
  }

  lemma ContinuationStep(text: string, more: string)
    requires text != [] && Stripped(text)
    requires more != [] && Stripped(more) && !StartsItem(more)
    ensures ParseStep(ParseState([], text), more) == ParseState([], text + " " + more)
    ensures Flushed(ParseState([], text + " " + more)) == [text + " " + more]
  {
    assert Strip(more) == more;
    assert Stripped(text + " " + more);
  }

  /** The suggestions longer than ten characters, in order. */
  function LongOnes(xs: seq<string>): (r: seq<string>)
    ensures |r| <= |xs|
    ensures forall i :: 0 <= i < |r| ==> |r[i]| > 10 && r[i] in xs
    ensures forall x :: x in xs && |x| > 10 ==> x in r
  {
    if xs == [] then []
    else (if |xs[0]| > 10 then [xs[0]] else []) + LongOnes(xs[1..])
  }

  /** The filter keeps order and repeats: it distributes over concatenation. */
  lemma {:induction false} LongOnesAppend(a: seq<string>, b: seq<string>)
    ensures LongOnes(a + b) == LongOnes(a) + LongOnes(b)
    decreases |a|
  {
    if a == [] {
      assert a + b == b;
    } else {
      var head := if |a[0]| > 10 then [a[0]] else [];
      var x, y := LongOnes(a[1..]), LongOnes(b);
      calc {
        LongOnes(a + b);
        { LongOnesHeadAppend(a, b); }
        head + LongOnes(a[1..] + b);
        { LongOnesAppend(a[1..], b); }
        head + (x + y);
        { AppendAssociates(head, x, y); }
        (head + x) + y;
        { LongOnesHead(a); }
        LongOnes(a) + y;
      }
    }
  }

  lemma LongOnesHead(xs: seq<string>)
    requires xs != []
    ensures LongOnes(xs) == (if |xs[0]| > 10 then [xs[0]] else []) + LongOnes(xs[1..])
  {
  }

  lemma LongOnesHeadAppend(a: seq<string>, b: seq<string>)
    requires a != []
    ensures LongOnes(a + b) == (if |a[0]| > 10 then [a[0]] else []) + LongOnes(a[1..] + b)
  {
    assert (a + b)[0] == a[0] && (a + b)[1..] == a[1..] + b;
  }

  lemma AppendAssociates(a: seq<string>, b: seq<string>, c: seq<string>)
    ensures a + (b + c) == (a + b) + c
  {
  }

  /** A single suggestion is kept exactly when it is longer than ten. */
  lemma LongOnesSingle(x: string)
    ensures LongOnes([x]) == if |x| > 10 then [x] else []
  {
    assert [x][1..] == [];
  }

  /** What `parse_test_suggestions` returns. */
  function SuggestionsOf(aiResponse: string): (r: seq<string>)
    ensures |r| <= |Split(CleanedResponse(aiResponse), "\n")|
    ensures forall i :: 0 <= i < |r| ==> |r[i]| > 10 && Stripped(r[i])
  {
    LongOnes(Flushed(ParseLines(Split(CleanedResponse(aiResponse), "\n"))))
  }

  /** `parse_test_suggestions`: the loop over the cleaned answer's lines. */
  method ParseTestSuggestions(aiResponse: string) returns (suggestions: seq<string>)
    ensures suggestions == SuggestionsOf(aiResponse)
    ensures forall i :: 0 <= i < |suggestions| ==> |suggestions[i]| > 10
  {
    var cleaned := CleanAiResponse(aiResponse);
    var lines := Split(cleaned, "\n");
    var done: seq<string> := [];
    var current := "";
    for k := 0 to |lines|
      invariant ParseState(done, current) == ParseLines(lines[..k])
    {
      ParseLinesSnoc(lines, k);
      ghost var before := ParseState(done, current);
      var line := Strip(lines[k]);
      if line == "" {
        continue;
      }
      if StartsItem(line) {
        if current != "" {
          done := done + [Strip(current)];
        }
        current := WithoutMarker(line);
        assert done == Flushed(before);
      } else {
        if current != "" {
          current := current + " " + line;
        } else {
          current := line;
        }
      }
      assert ParseState(done, current) == ParseStep(before, lines[k]);
    }
    assert lines[..|lines|] == lines;
    ghost var final := ParseState(done, current);
    if current != "" {
      done := done + [Strip(current)];
    }
    assert done == Flushed(final);
    suggestions := LongOnes(done);
  }

  // ---------------------------------------------------------------------
  // File names, branch names and commit messages
  // ---------------------------------------------------------------------

  /** `path.split('/')[-1].split('.')[0]`: the last path segment up to its
      first dot. */
  function BaseName(path: string): (base: string)
    ensures '/' !in base && '.' !in base
    ensures StartsWith(AfterLast(path, '/'), base)
    ensures var last := AfterLast(path, '/'); |base| == |last| || last[|base|] == '.'
  {
    var name := AfterLast(path, '/');
    var base := BeforeFirst(name, '.');
    assert '/' !in base by {
      assert forall i :: 0 <= i < |base| ==> base[i] == name[i];
    }
    base
  }

  const FilenamePatterns: map<string, (string, string)> := map[
    "pytest" := ("test_", ".py"),
    "jest" := ("", ".test.js"),
    "junit" := ("", "Test.java"),
    "testing" := ("", "_test.go"),
    "rspec" := ("", "_spec.rb"),
    "phpunit" := ("", "Test.php"),
    "nunit" := ("", "Tests.cs"),
    "xctest" := ("", "Tests.swift")
  ]

  /** `generate_test_filename`: the framework's naming pattern around the
      base name, `test_{base}.py` for an unlisted framework. The name has no
      directory part. */
  function GenerateTestFilename(originalFile: string, framework: string): (name: string)
    ensures '/' !in name
    ensures framework in FilenamePatterns ==>
      name == FilenamePatterns[framework].0 + BaseName(originalFile) + FilenamePatterns[framework].1
    ensures framework !in FilenamePatterns ==> name == "test_" + BaseName(originalFile) + ".py"
  {
    var base := BaseName(originalFile);
    var (before, after) := if framework in FilenamePatterns then FilenamePatterns[framework] else ("test_", ".py");
    PatternsHaveNoSlash();
    before + base + after
  }

  lemma PatternsHaveNoSlash()
    ensures forall f :: f in FilenamePatterns ==> '/' !in FilenamePatterns[f].0 && '/' !in FilenamePatterns[f].1
  {
  }

  /** Characters a branch name may keep: `[a-zA-Z0-9\-_/]`. */
  predicate BranchChar(c: char) {
    IsLetter(c) || IsDigit(c) || c == '-' || c == '_' || c == '/'
  }

  /** No two consecutive occurrences of `c`. */
  predicate NoDoubled(s: string, c: char) {
    forall i :: 0 <= i < |s| - 1 ==> !(s[i] == c && s[i + 1] == c)
  }

  /** Every disallowed character replaced by a hyphen. */
  function ReplaceInvalid(s: string): (r: string)
    ensures |r| == |s|
    ensures forall i :: 0 <= i < |r| ==> BranchChar(r[i])
    ensures forall i :: 0 <= i < |s| && BranchChar(s[i]) ==> r[i] == s[i]
  {
    seq(|s|, i requires 0 <= i < |s| => if BranchChar(s[i]) then s[i] else '-')
  }

  /** Every run of hyphens collapsed to one hyphen (`re.sub(r'-+', '-', s)`). */
  function CollapseHyphens(s: string): (r: string)
    ensures NoDoubled(r, '-')
    ensures forall c :: c in r ==> c in s
    ensures r == [] <==> s == []
    ensures r != [] ==> r[0] == s[0]
    decreases |s|
  {
    if |s| < 2 then s
    else if s[0] == '-' && s[1] == '-' then CollapseHyphens(s[1..])
    else [s[0]] + CollapseHyphens(s[1..])
  }

  /** A stretch of a string keeps the property of having no doubled `c`. */
  lemma NoDoubledSlice(s: string, c: char, i: nat, j: nat)
    requires NoDoubled(s, c) && i <= j <= |s|
    ensures NoDoubled(s[i..j], c)
  {
    assert forall k :: 0 <= k < j - i ==> s[i..j][k] == s[i + k];
  }

  /** Only allowed characters and no doubled hyphen. */
  predicate BranchSafe(s: string) {
    (forall i :: 0 <= i < |s| ==> BranchChar(s[i])) && NoDoubled(s, '-')
  }

  lemma BranchSafeSlice(s: string, i: nat, j: nat)
    requires BranchSafe(s) && i <= j <= |s|
    ensures BranchSafe(s[i..j])
  {
    NoDoubledSlice(s, '-', i, j);
    assert forall k :: 0 <= k < j - i ==> s[i..j][k] == s[i + k];
  }

  /** `validate_branch_name`: disallowed characters become hyphens, runs of
      hyphens shrink to one, hyphens are trimmed, an empty name becomes
      `test-branch`, and leading slashes are removed last. */
  function ValidateBranchName(branchName: string): (r: string)
    ensures forall i :: 0 <= i < |r| ==> BranchChar(r[i])
    ensures NoDoubled(r, '-')
    ensures r == [] || r[0] != '/'
  {
    var replaced := ReplaceInvalid(branchName);
    var collapsed := CollapseHyphens(replaced);
    var trimmed := StripChar(collapsed, '-');
    var named := if trimmed == "" then "test-branch" else trimmed;
    assert BranchSafe(collapsed) by {
      forall i | 0 <= i < |collapsed|
        ensures BranchChar(collapsed[i])
      {
        assert collapsed[i] in replaced;
      }
    }
    BranchNameFacts(collapsed, named);
    LStripChar(named, '/')
  }

  lemma BranchNameFacts(collapsed: string, named: string)
    requires BranchSafe(collapsed)
    requires named == if StripChar(collapsed, '-') == "" then "test-branch" else StripChar(collapsed, '-')
    ensures BranchSafe(LStripChar(named, '/'))
  {
    StripHyphensSafe(collapsed);
    assert BranchSafe("test-branch");
    LStripSafe(named, '/');
  }

  lemma StripHyphensSafe(s: string)
    requires BranchSafe(s)
    ensures BranchSafe(StripChar(s, '-'))
  {
    LStripSafe(s, '-');
    var l := LStripChar(s, '-');
    var t := RStripChar(l, '-');
    BranchSafeSlice(l, 0, |t|);
    assert t == l[0..|t|];
  }

  lemma LStripSafe(s: string, c: char)
    requires BranchSafe(s)
    ensures BranchSafe(LStripChar(s, c))
  {
    var r := LStripChar(s, c);
    BranchSafeSlice(s, |s| - |r|, |s|);
    assert r == s[|s| - |r|..|s|];
  }

  /** A name made only of slashes leaves nothing. */
  lemma AllSlashesGiveEmpty(branchName: string)
    requires branchName != [] && forall i :: 0 <= i < |branchName| ==> branchName[i] == '/'
    ensures ValidateBranchName(branchName) == ""
  {
    var replaced := ReplaceInvalid(branchName);
    assert replaced == branchName;
    SlashesCollapse(replaced);
    var trimmed := StripChar(replaced, '-');
    assert trimmed == replaced by {
      assert LStripChar(replaced, '-') == replaced;
      assert RStripChar(replaced, '-') == replaced;
    }
    LStripSlashes(replaced);
  }

  lemma {:induction false} SlashesCollapse(s: string)
    requires forall i :: 0 <= i < |s| ==> s[i] == '/'
    ensures CollapseHyphens(s) == s
    decreases |s|
  {
    if |s| >= 2 {
      SlashesCollapse(s[1..]);
      assert [s[0]] + s[1..] == s;
    }
  }

  lemma {:induction false} LStripSlashes(s: string)
    requires forall i :: 0 <= i < |s| ==> s[i] == '/'
    ensures LStripChar(s, '/') == ""
    decreases |s|
  {
    if s != [] {
      LStripSlashes(s[1..]);
    }
  }

  /** A name with no allowed character other than hyphens becomes
      `test-branch`. */
  lemma NoUsableCharacterGivesDefault(branchName: string)
    requires forall i :: 0 <= i < |branchName| ==> branchName[i] == '-' || !BranchChar(branchName[i])
    ensures ValidateBranchName(branchName) == "test-branch"
  {
    var replaced := ReplaceInvalid(branchName);
    assert forall i :: 0 <= i < |replaced| ==> replaced[i] == '-';
    var collapsed := CollapseHyphens(replaced);
    assert forall i :: 0 <= i < |collapsed| ==> collapsed[i] == '-' by {
      forall i | 0 <= i < |collapsed|
        ensures collapsed[i] == '-'
      {
        assert collapsed[i] in replaced;
      }
    }
    var l := LStripChar(collapsed, '-');
    assert l == [];
    assert StripChar(collapsed, '-') == [];
    var named := "test-branch";
    assert LStripChar(named, '/') == named;
  }

  /** A name that is already valid (allowed characters only, no doubled
      hyphen, not empty, neither starting nor ending with a hyphen, not
      starting with a slash) is kept as it is. */
  lemma ValidNameKept(branchName: string)
    requires BranchSafe(branchName) && branchName != []
    requires branchName[0] != '-' && branchName[|branchName| - 1] != '-' && branchName[0] != '/'
    ensures ValidateBranchName(branchName) == branchName
  {
    var replaced := ReplaceInvalid(branchName);
    assert replaced == branchName;
    CollapseKeepsSafe(branchName);
    NoLeadingKept(branchName, '-');
    NoTrailingKept(branchName, '-');
    assert StripChar(branchName, '-') == branchName;
    NoLeadingKept(branchName, '/');
  }

  lemma {:induction false} CollapseKeepsSafe(s: string)
    requires NoDoubled(s, '-')
    ensures CollapseHyphens(s) == s
    decreases |s|
  {
    if |s| >= 2 {
      NoDoubledSlice(s, '-', 1, |s|);
      CollapseKeepsSafe(s[1..]);
      assert [s[0]] + s[1..] == s;
    }
  }

  lemma NoLeadingKept(s: string, c: char)
    requires s == [] || s[0] != c
    ensures LStripChar(s, c) == s
  {
  }

  lemma NoTrailingKept(s: string, c: char)
    requires s == [] || s[|s| - 1] != c
    ensures RStripChar(s, c) == s
  {
  }

  const MaxSummaryLength: nat := 50

  /** `format_commit_message`: a summary over 50 characters is cut to its
      first 50 followed by `...`. */
  function FormatCommitMessage(testFileName: string, summary: string): (message: string)
    ensures var head := "Add " + testFileName + "\n\nGenerated test for: ";
      StartsWith(message, head)
      && (|summary| <= MaxSummaryLength ==> message[|head|..] == summary)
      && (|summary| > MaxSummaryLength ==> message[|head|..] == summary[..MaxSummaryLength] + "...")
      && |message| <= |head| + MaxSummaryLength + 3
  {
    var shown := if |summary| > MaxSummaryLength then summary[..MaxSummaryLength] + "..." else summary;
    "Add " + testFileName + "\n\nGenerated test for: " + shown
  }

  // ---------------------------------------------------------------------
  // Fenced code extraction
  // ---------------------------------------------------------------------

  const Fence: string := "```"

  function WordRun(s: string): (n: nat)
    ensures n <= |s|
    ensures forall i :: 0 <= i < n ==> IsWordChar(s[i])
    ensures n == |s| || !IsWordChar(s[n])
  {
    if s != [] && IsWordChar(s[0]) then 1 + WordRun(s[1..]) else 0
  }

  /** Where the body starts when the opening fence is at `p`: after the
      fence, its word run and at most one newline. */
  function BodyStart(s: string, p: nat): (b: nat)
    requires p + 3 <= |s|
    ensures p + 3 <= b <= |s|
  {
    var afterTag := p + 3 + WordRun(s[p + 3..]);
    if afterTag < |s| && s[afterTag] == '\n' then afterTag + 1 else afterTag
  }

  /** Where the body ends in `rest` (the text after the opening fence and its
      tag) when the closing fence is at `c`: one character earlier when a
      newline precedes that fence. */
  function BodyEnd(rest: string, c: nat): (e: nat)
    requires c <= |rest|
    ensures e <= c
  {
    if c > 0 && rest[c - 1] == '\n' then c - 1 else c
  }

  /** The group captured by the first match of ```` ```[\w]*\n?(.*?)\n?``` ````
      (dot matching newlines). The opening fence is the first one; the body
      runs from `BodyStart` to the first fence after it, less a newline just
      before that fence. There is a match exactly when a second fence follows
      the first. */
  function FencedBody(s: string): (body: Option<string>)
    ensures body.Some? ==> !Contains(body.value, Fence)
  {
    match IndexOf(s, Fence)
    case None => None
    case Some(p) => BodyOf(s[BodyStart(s, p)..])
  }

  /** The body inside `rest`, the text after the opening fence and its tag:
      up to the first fence, less a newline just before it; none without a
      fence. */
  function BodyOf(rest: string): (body: Option<string>)
    ensures body.Some? ==> !Contains(body.value, Fence)
  {
    match IndexOf(rest, Fence)
    case None => None
    case Some(k) =>
      NoOccurrenceBefore(rest, Fence, BodyEnd(rest, k));
      Some(rest[..BodyEnd(rest, k)])
  }

  /** `extract_code_from_ai_response`: the stripped body of the first fenced
      block, or the whole answer stripped when there is none. */
  function ExtractCodeFromAiResponse(response: string): (code: string)
    ensures Stripped(code)
    ensures !Contains(response, Fence) ==> code == Strip(response)
  {
    match FencedBody(response)
    case Some(body) => Strip(body)
    case None => Strip(response)
  }

  /** A block written as a fence, a language tag, a newline, the code, a
      newline and a closing fence gives back exactly the code. */
  lemma ExtractFencedBlock(tag: string, code: string)
    requires forall i :: 0 <= i < |tag| ==> IsWordChar(tag[i])
    requires Stripped(code) && !Contains(code, Fence)
    ensures ExtractCodeFromAiResponse(Fence + tag + "\n" + code + "\n" + Fence) == code
  {
    FencedBlockBody(tag, code);
  }

  lemma FencedBlockBody(tag: string, code: string)
    requires forall i :: 0 <= i < |tag| ==> IsWordChar(tag[i])
    requires !Contains(code, Fence)
    ensures FencedBody(Fence + tag + "\n" + code + "\n" + Fence) == Some(code)
  {
    var s := Fence + tag + "\n" + code + "\n" + Fence;
    var b := 3 + |tag| + 1;
    OpeningFence(tag, code);
    var rest := code + "\n" + Fence;
    assert s[b..] == rest;
    FencedBodyAt(s, rest);
    ClosingFence(rest, code);
    BodyOfBlock(rest, code);
  }

  /** With the first fence at the start, the body is taken from what follows
      its tag. */
  lemma FencedBodyAt(s: string, rest: string)
    requires 3 <= |s| && IndexOf(s, Fence) == Some(0) && s[BodyStart(s, 0)..] == rest
    ensures FencedBody(s) == BodyOf(rest)
  {
  }

  /** Code, a newline and a closing fence: the body is the code. */
  lemma BodyOfBlock(rest: string, code: string)
    requires rest == code + "\n" + Fence
    requires IndexOf(rest, Fence) == Some(|code| + 1)
    ensures BodyOf(rest) == Some(code)
  {
    var k := |code| + 1;
    assert rest[k - 1] == '\n';
    assert BodyEnd(rest, k) == |code|;
    assert rest[..|code|] == code;
  }

  /** The first fence opens the block, and the body starts after the tag and
      its newline. */
  lemma OpeningFence(tag: string, code: string)
    requires forall i :: 0 <= i < |tag| ==> IsWordChar(tag[i])
    ensures var s := Fence + tag + "\n" + code + "\n" + Fence;
      IndexOf(s, Fence) == Some(0) && BodyStart(s, 0) == |tag| + 4
  {
    var s := Fence + tag + "\n" + code + "\n" + Fence;
    assert OccursAt(s, Fence, 0);
    assert WordRun(s[3..]) == |tag| by {
      var w := WordRun(s[3..]);
      assert forall i :: 0 <= i < |tag| ==> s[3..][i] == tag[i];
      assert s[3..][|tag|] == '\n';
    }
    assert s[3 + |tag|] == '\n';
  }

  /** Code without a fence, a newline and a fence: the first fence is the
      closing one. */
  lemma ClosingFence(rest: string, code: string)
    requires !Contains(code, Fence)
    requires rest == code + "\n" + Fence
    ensures IndexOf(rest, Fence) == Some(|code| + 1)
  {
    var k := |code| + 1;
    assert rest[k..k + 3] == Fence;
    assert OccursAt(rest, Fence, k);
    forall j: nat | j < k
      ensures !OccursAt(rest, Fence, j)
    {
      if j + 3 <= |code| {
        CodeWindow(rest, code, j);
      } else {
        NewlineWindow(rest, code, j);
      }
    }
    FirstOccurrence(rest, Fence, k);
  }

  /** A window inside the code is not a fence. */
  lemma CodeWindow(rest: string, code: string, j: nat)
    requires !Contains(code, Fence) && rest == code + "\n" + Fence && j + 3 <= |code|
    ensures !OccursAt(rest, Fence, j)
  {
    assert rest[j..j + 3] == code[j..j + 3];
    assert !OccursAt(code, Fence, j);
  }

  /** A window over the newline is not a fence. */
  lemma NewlineWindow(rest: string, code: string, j: nat)
    requires rest == code + "\n" + Fence && |code| < j + 3 && j <= |code|
    ensures !OccursAt(rest, Fence, j)
  {
    assert rest[|code|] == '\n';
    assert rest[j..j + 3][|code| - j] == '\n';
  }

  // ---------------------------------------------------------------------
  // Path sanitising
  // ---------------------------------------------------------------------

  /** `sanitize_file_path`: `..` removed, `//` collapsed once, leading
      slashes dropped; an empty result is a 400 error. The result never
      contains `..` and never starts with `/`. */
  function SanitizeFilePath(filePath: string): (r: Result<string>)
    ensures r.Ok? ==> NoDoubled(r.value, '.') && r.value != [] && r.value[0] != '/'
    ensures r.Err? ==> r == Err(400, "Invalid file path")
  {
    var noDots := Replace(filePath, "..", "");
    var noDoubleSlash := Replace(noDots, "//", "/");
    var sanitized := LStripChar(noDoubleSlash, '/');
    if sanitized == "" then Err(400, "Invalid file path")
    else
      RemovingDotsLeavesNone(filePath);
      SlashCollapseKeepsNoDots(noDots);
      NoDoubledSlice(noDoubleSlash, '.', |noDoubleSlash| - |sanitized|, |noDoubleSlash|);
      assert sanitized == noDoubleSlash[|noDoubleSlash| - |sanitized|..|noDoubleSlash|];
      Ok(sanitized)
  }

  lemma PairAt(s: string, c: char)
    requires |s| >= 2
    ensures OccursAt(s, [c, c], 0) <==> s[0] == c && s[1] == c
  {
    assert s[0..2] == [s[0], s[1]];
  }

  /** After removing every `..` left to right, no two dots are adjacent, and
      the result starts with a dot only if the input did. */
  lemma {:induction false} RemovingDotsLeavesNone(s: string)
    ensures NoDoubled(Replace(s, "..", ""), '.')
    ensures Replace(s, "..", "") != [] && Replace(s, "..", "")[0] == '.' ==> s != [] && s[0] == '.'
    decreases |s|
  {
    if |s| >= 2 {
      PairAt(s, '.');
    }
    if OccursAt(s, "..", 0) {
      RemovingDotsLeavesNone(s[2..]);
    } else if s != [] {
      RemovingDotsLeavesNone(s[1..]);
      var rest := Replace(s[1..], "..", "");
      assert Replace(s, "..", "") == [s[0]] + rest;

    }
  }

  /** Collapsing `//` cannot make two dots adjacent. */
  lemma {:induction false} SlashCollapseKeepsNoDots(s: string)
    requires NoDoubled(s, '.')
    ensures NoDoubled(Replace(s, "//", "/"), '.')
    ensures Replace(s, "//", "/") != [] && Replace(s, "//", "/")[0] == '.' ==> s != [] && s[0] == '.'
    decreases |s|
  {
    if OccursAt(s, "//", 0) {
      NoDoubledSlice(s, '.', 2, |s|);
      SlashCollapseKeepsNoDots(s[2..]);
    } else if s != [] {
      NoDoubledSlice(s, '.', 1, |s|);
      SlashCollapseKeepsNoDots(s[1..]);
    }
  }

  /** A relative path with no `..` and no `//` passes through unchanged. */
  lemma SanitizeKeepsCleanPath(filePath: string)
    requires filePath != [] && filePath[0] != '/'
    requires !Contains(filePath, "..") && !Contains(filePath, "//")
    ensures SanitizeFilePath(filePath) == Ok(filePath)
  {
    ReplaceWithoutPattern(filePath, "..", "");
    ReplaceWithoutPattern(filePath, "//", "/");
  }
}
