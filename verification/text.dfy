/**
  String operations used by both halves of the system, written out over
  `seq<char>`: Python's `strip`/`lower`/`split`/`join`/`replace`/`in` and the
  JavaScript `trim`/`toLowerCase`/`split`/`includes` counterparts. Whitespace
  is the six ASCII whitespace characters and case is that of the ASCII
  letters.
*/
module Text {
  import opened Outcome

  /** The six ASCII whitespace characters, which `str.strip()` and
      `String.prototype.trim()` both remove. Python's `strip` also removes the
      separators `\x1c`-`\x1f`, which `trim` keeps, and both remove further
      Unicode spaces; none of those is whitespace here. */
  predicate IsSpace(c: char) {
    c == ' ' || c == '\t' || c == '\n' || c == '\r' || c == '\U{B}' || c == '\U{C}'
  }

  predicate IsDigit(c: char) {
    '0' <= c <= '9'
  }

  predicate IsLetter(c: char) {
    'a' <= c <= 'z' || 'A' <= c <= 'Z'
  }

  /** The characters a regular expression `\w` matches (ASCII). */
  predicate IsWordChar(c: char) {
    IsLetter(c) || IsDigit(c) || c == '_'
  }

  function LowerChar(c: char): (d: char)
    ensures !('A' <= d <= 'Z')
    ensures !('A' <= c <= 'Z') ==> d == c
  {
    if 'A' <= c <= 'Z' then (c as int + 32) as char else c
  }

  /** `s.lower()` / `s.toLowerCase()`. */
  function Lower(s: string): (r: string)
    ensures |r| == |s|
    ensures forall i :: 0 <= i < |s| ==> r[i] == LowerChar(s[i])
  {
    seq(|s|, i requires 0 <= i < |s| => LowerChar(s[i]))
  }

  /** Lower-casing leaves a character that is not a letter where it was: it
      occurs in the result exactly when it occurs in the input. */
  lemma LowerKeepsChar(s: string, c: char)
    requires !IsLetter(c)
    ensures c in Lower(s) <==> c in s
  {
    if c in s {
      var i :| 0 <= i < |s| && s[i] == c;
      assert Lower(s)[i] == c;
    }
    if c in Lower(s) {
      var i :| 0 <= i < |s| && Lower(s)[i] == c;
      assert s[i] == c;
    }
  }

  /** Lower-casing twice is lower-casing once. */
  lemma LowerIdempotent(s: string)
    ensures Lower(Lower(s)) == Lower(s)
  {
  }

  predicate StartsWith(s: string, prefix: string) {
    |prefix| <= |s| && s[..|prefix|] == prefix
  }

  predicate EndsWith(s: string, suffix: string) {
    |suffix| <= |s| && s[|s| - |suffix|..] == suffix
  }

  /** No leading and no trailing whitespace. */
  predicate Stripped(s: string) {
    s == [] || (!IsSpace(s[0]) && !IsSpace(s[|s| - 1]))
  }

  /** `s.lstrip()`: drops the leading whitespace and nothing else. */
  function LStrip(s: string): (r: string)
    ensures |r| <= |s| && r == s[|s| - |r|..]
    ensures r == [] || !IsSpace(r[0])
    ensures forall i :: 0 <= i < |s| - |r| ==> IsSpace(s[i])
    decreases |s|
  {
    if s != [] && IsSpace(s[0]) then
      var r := LStrip(s[1..]);
      assert s[1..][|s| - 1 - |r|..] == s[|s| - |r|..];
      r
    else s
  }

  /** `s.rstrip()`: drops the trailing whitespace and nothing else. */
  function RStrip(s: string): (r: string)
    ensures |r| <= |s| && r == s[..|r|]
    ensures r == [] || !IsSpace(r[|r| - 1])
    ensures forall i :: |r| <= i < |s| ==> IsSpace(s[i])
    decreases |s|
  {
    if s != [] && IsSpace(s[|s| - 1]) then RStrip(s[..|s| - 1]) else s
  }

  /** `s.strip()` / `s.trim()`: the result has no surrounding whitespace, and a
      string that has none is returned unchanged. */
  function Strip(s: string): (r: string)
    ensures Stripped(r)
    ensures |r| <= |s|
    ensures Stripped(s) ==> r == s
  {
    var l := LStrip(s);
    var r := RStrip(l);
    assert r != [] ==> r[0] == l[0];
    r
  }

  /** The length of the leading run of `c` in `s`. */
  function LeadingRun(s: string, c: char): (n: nat)
    ensures n <= |s|
    ensures forall i :: 0 <= i < n ==> s[i] == c
    ensures n < |s| ==> s[n] != c
    decreases |s|
  {
    if s != [] && s[0] == c then
      var n := LeadingRun(s[1..], c);
      assert forall i :: 1 <= i < n + 1 ==> s[i] == s[1..][i - 1];
      n + 1
    else 0
  }

  /** `s.lstrip(c)`: drops the leading run of `c`. */
  function LStripChar(s: string, c: char): (r: string)
    ensures |r| <= |s| && r == s[|s| - |r|..]
    ensures r == [] || r[0] != c
    ensures forall i :: 0 <= i < |s| - |r| ==> s[i] == c
  {
    s[LeadingRun(s, c)..]
  }

  /** `s.rstrip(c)`: drops the trailing run of `c`. */
  function RStripChar(s: string, c: char): (r: string)
    ensures |r| <= |s| && r == s[..|r|]
    ensures r == [] || r[|r| - 1] != c
    ensures forall i :: |r| <= i < |s| ==> s[i] == c
    decreases |s|
  {
    if s != [] && s[|s| - 1] == c then RStripChar(s[..|s| - 1], c) else s
  }

  /** `s.strip(c)`. */
  function StripChar(s: string, c: char): (r: string)
    ensures r == [] || (r[0] != c && r[|r| - 1] != c)
  {
    var l := LStripChar(s, c);
    var r := RStripChar(l, c);
    assert r != [] ==> r[0] == l[0];
    r
  }

  /** `sub` occurs in `s` starting at position `j`. */
  predicate OccursAt(s: string, sub: string, j: nat) {
    j + |sub| <= |s| && s[j..j + |sub|] == sub
  }

  lemma OccursAtShift(s: string, sub: string)
    requires s != []
    ensures forall j: nat :: j >= 1 ==> (OccursAt(s, sub, j) <==> OccursAt(s[1..], sub, j - 1))
  {
    forall j: nat | j >= 1
      ensures OccursAt(s, sub, j) <==> OccursAt(s[1..], sub, j - 1)
    {
      if j + |sub| <= |s| {
        assert s[1..][j - 1..j - 1 + |sub|] == s[j..j + |sub|];
      }
    }
  }

  /** The first position at which `sub` occurs in `s` (`s.find(sub)`, `s.indexOf(sub)`). */
  function IndexOf(s: string, sub: string): (r: Option<nat>)
    ensures r.Some? ==> OccursAt(s, sub, r.value)
    ensures r.Some? ==> forall j: nat :: j < r.value ==> !OccursAt(s, sub, j)
    ensures r.None? ==> forall j: nat :: !OccursAt(s, sub, j)
    decreases |s|
  {
    if OccursAt(s, sub, 0) then Some(0)
    else if s == [] then None
    else
      OccursAtShift(s, sub);
      match IndexOf(s[1..], sub)
      case None => None
      case Some(k) => Some(k + 1)
  }

  /** `sub in s` (Python) / `s.includes(sub)` (JavaScript). */
  predicate Contains(s: string, sub: string) {
    IndexOf(s, sub).Some?
  }

  /** For a one-character needle, `Contains` is sequence membership. */
  lemma ContainsChar(s: string, c: char)
    ensures Contains(s, [c]) <==> c in s
  {
    if c in s {
      var j :| 0 <= j < |s| && s[j] == c;
      assert OccursAt(s, [c], j);
    }
    if Contains(s, [c]) {
      var j := IndexOf(s, [c]).value;
      assert s[j] == s[j..j + 1][0];
    }
  }

  /** An occurrence with none before it is the one `IndexOf` finds. */
  lemma FirstOccurrence(s: string, sub: string, k: nat)
    requires OccursAt(s, sub, k)
    requires forall j: nat :: j < k ==> !OccursAt(s, sub, j)
    ensures IndexOf(s, sub) == Some(k)
  {
    var found := IndexOf(s, sub);
    assert found.Some?;
    assert found.value <= k;
  }

  /** A prefix that ends before the first occurrence holds no occurrence. */
  lemma NoOccurrenceBefore(s: string, sep: string, i: nat)
    requires |sep| > 0 && i <= |s|
    requires forall j: nat :: j < i ==> !OccursAt(s, sep, j)
    ensures !Contains(s[..i], sep)
  {
    var h := s[..i];
    forall j: nat
      ensures !OccursAt(h, sep, j)
    {
      if j + |sep| <= |h| {
        assert !OccursAt(s, sep, j);
        assert h[j..j + |sep|] == s[j..j + |sep|];
      }
    }
  }

  /** `s.split(sep)` for a non-empty separator: the pieces between the
      occurrences of `sep`, scanned left to right. */
  function Split(s: string, sep: string): (parts: seq<string>)
    requires |sep| > 0
    ensures |parts| >= 1
    decreases |s|
  {
    match IndexOf(s, sep)
    case None => [s]
    case Some(i) => [s[..i]] + Split(s[i + |sep|..], sep)
  }

  /** `sep.join(parts)`. */
  function Join(parts: seq<string>, sep: string): string
  {
    if parts == [] then ""
    else if |parts| == 1 then parts[0]
    else parts[0] + sep + Join(parts[1..], sep)
  }

  lemma JoinCons(head: string, parts: seq<string>, sep: string)
    requires |parts| >= 1
    ensures Join([head] + parts, sep) == head + sep + Join(parts, sep)
  {
    assert ([head] + parts)[1..] == parts;
  }

  /** Joining the pieces of a split with the same separator gives back the
      original string. */
  lemma {:induction false} JoinSplit(s: string, sep: string)
    requires |sep| > 0
    ensures Join(Split(s, sep), sep) == s
    decreases |s|
  {
    match IndexOf(s, sep)
    case None =>
    case Some(i) =>
      var rest := s[i + |sep|..];
      var parts := Split(rest, sep);
      JoinSplit(rest, sep);
      JoinCons(s[..i], parts, sep);
      assert s == s[..i] + s[i..i + |sep|] + rest;
  }

  /** No piece of a split contains the separator. */
  lemma {:induction false} SplitPiecesAvoidSeparator(s: string, sep: string)
    requires |sep| > 0
    ensures forall k :: 0 <= k < |Split(s, sep)| ==> !Contains(Split(s, sep)[k], sep)
    decreases |s|
  {
    match IndexOf(s, sep)
    case None =>
    case Some(i) =>
      var rest := s[i + |sep|..];
      SplitPiecesAvoidSeparator(rest, sep);
      NoOccurrenceBefore(s, sep, i);
      assert Split(s, sep) == [s[..i]] + Split(rest, sep);
  }

  /** A string without the separator splits into itself alone. */
  lemma SplitWithoutSeparator(s: string, sep: string)
    requires |sep| > 0 && !Contains(s, sep)
    ensures Split(s, sep) == [s]
  {
  }

  /** `s.replace(pat, rep)` (and JavaScript's `s.replace(/pat/g, rep)`):
      occurrences found left to right, without overlap, each replaced. */
  function Replace(s: string, pat: string, rep: string): (r: string)
    requires |pat| > 0
    decreases |s|
  {
    if OccursAt(s, pat, 0) then rep + Replace(s[|pat|..], pat, rep)
    else if s == [] then ""
    else [s[0]] + Replace(s[1..], pat, rep)
  }

  lemma SplitAtFirst(s: string, sep: string, i: nat)
    requires |sep| > 0 && IndexOf(s, sep) == Some(i)
    ensures Split(s, sep) == [s[..i]] + Split(s[i + |sep|..], sep)
  {
    match IndexOf(s, sep)
    case Some(k) =>
      assert k == i;
  }

  /** A string without the pattern is left as it is by `Replace`. */
  lemma {:induction false} ReplaceWithoutPattern(s: string, pat: string, rep: string)
    requires |pat| > 0 && !Contains(s, pat)
    ensures Replace(s, pat, rep) == s
    decreases |s|
  {
    if s != [] {
      OccursAtShift(s, pat);
      assert !OccursAt(s, pat, 0);
      forall j: nat
        ensures !OccursAt(s[1..], pat, j)
      {
        assert !OccursAt(s, pat, j + 1);
      }
      ReplaceWithoutPattern(s[1..], pat, rep);
      assert [s[0]] + s[1..] == s;
    }
  }

  /** `xs[-1]` / `xs.pop()`. */
  function Last<T>(xs: seq<T>): T
    requires |xs| > 0
  {
    xs[|xs| - 1]
  }

  lemma {:induction false} LastPieceIsSuffix(s: string, sep: string)
    requires |sep| > 0
    ensures EndsWith(s, Last(Split(s, sep)))
    decreases |s|
  {
    match IndexOf(s, sep)
    case None =>
    case Some(i) =>
      var rest := s[i + |sep|..];
      LastPieceIsSuffix(rest, sep);
      SplitAtFirst(s, sep, i);
      LastOfConcat([s[..i]], Split(rest, sep));
      SuffixOfSuffix(s, i + |sep|, Last(Split(rest, sep)));
  }

  lemma LastOfConcat<T>(a: seq<T>, b: seq<T>)
    requires |b| > 0
    ensures Last(a + b) == Last(b)
  {
  }

  /** A suffix of a suffix of `s` is a suffix of `s`. */
  lemma SuffixOfSuffix(s: string, j: nat, x: string)
    requires j <= |s| && EndsWith(s[j..], x)
    ensures EndsWith(s, x)
  {
    assert s[|s| - |x|..] == s[j..][|s| - j - |x|..];
  }

  /** When the separator occurs, the last piece of a split directly follows
      an occurrence of it. */
  lemma LastPieceFollowsSeparator(s: string, sep: string)
    requires |sep| > 0 && Contains(s, sep)
    ensures |Last(Split(s, sep))| + |sep| <= |s|
    ensures OccursAt(s, sep, |s| - |Last(Split(s, sep))| - |sep|)
  {
    var i := IndexOf(s, sep).value;
    SplitAtFirst(s, sep, i);
    var pieces := Split(s, sep);
    JoinSplit(s, sep);
    JoinLast(pieces, sep);
    SeparatorBeforeEnd(Join(pieces[..|pieces| - 1], sep), sep, Last(pieces));
  }

  /** Joining at least two pieces ends with the separator and the last
      piece. */
  lemma {:induction false} JoinLast(parts: seq<string>, sep: string)
    requires |parts| >= 2
    ensures Join(parts, sep) == Join(parts[..|parts| - 1], sep) + sep + Last(parts)
    decreases |parts|
  {
    if |parts| > 2 {
      var tail := parts[1..];
      JoinLast(tail, sep);
      assert parts[..|parts| - 1][1..] == tail[..|tail| - 1];
      assert Join(parts[..|parts| - 1], sep) == parts[0] + sep + Join(tail[..|tail| - 1], sep);
    } else {
      assert parts[..1] == [parts[0]];
    }
  }

  lemma SeparatorBeforeEnd(front: string, sep: string, last: string)
    ensures OccursAt(front + sep + last, sep, |front|)
  {
    assert (front + sep + last)[|front|..|front| + |sep|] == sep;
  }

  /** The text after the last `c` (all of `s` when `s` has no `c`):
      `s.split(c)[-1]` in Python, `s.split(c).pop()` in JavaScript.
      `AfterLastFollows` adds that, when `s` holds a `c`, the result starts
      right after one. */
  function AfterLast(s: string, c: char): (r: string)
    ensures c !in r
    ensures c !in s ==> r == s
    ensures EndsWith(s, r)
  {
    AfterLastFacts(s, c);
    Last(Split(s, [c]))
  }

  lemma AfterLastFacts(s: string, c: char)
    ensures c !in Last(Split(s, [c]))
    ensures c !in s ==> Last(Split(s, [c])) == s
    ensures EndsWith(s, Last(Split(s, [c])))
  {
    SplitPiecesAvoidSeparator(s, [c]);
    ContainsChar(Last(Split(s, [c])), c);
    ContainsChar(s, c);
    LastPieceIsSuffix(s, [c]);
  }

  /** When `s` holds a `c`, the text after the last `c` is preceded by a `c`:
      with the ensures of `AfterLast` (no `c` in it, a suffix of `s`) this
      pins it to the suffix after the last `c`. */
  lemma AfterLastFollows(s: string, c: char)
    requires c in s
    ensures |AfterLast(s, c)| < |s| && s[|s| - |AfterLast(s, c)| - 1] == c
  {
    ContainsChar(s, c);
    LastPieceFollowsSeparator(s, [c]);
    var j := |s| - |Last(Split(s, [c]))| - 1;
    assert s[j] == s[j..j + 1][0];
  }

  /** The text before the first `c` (all of `s` when `s` has no `c`):
      `s.split(c)[0]`. */
  function BeforeFirst(s: string, c: char): (r: string)
    ensures c !in r
    ensures StartsWith(s, r)
    ensures c !in s ==> r == s
    ensures |r| == |s| || s[|r|] == c
  {
    BeforeFirstFacts(s, c);
    Split(s, [c])[0]
  }

  lemma BeforeFirstFacts(s: string, c: char)
    ensures c !in Split(s, [c])[0]
    ensures StartsWith(s, Split(s, [c])[0])
    ensures c !in s ==> Split(s, [c])[0] == s
    ensures |Split(s, [c])[0]| == |s| || s[|Split(s, [c])[0]|] == c
  {
    SplitPiecesAvoidSeparator(s, [c]);
    ContainsChar(Split(s, [c])[0], c);
    ContainsChar(s, c);
    match IndexOf(s, [c])
    case None =>
    case Some(i) =>
      SplitAtFirst(s, [c], i);
      assert s[i] == s[i..i + 1][0];
  }

  /** The property names every JavaScript object inherits from
      `Object.prototype`: looking one of them up on a plain object literal
      gives a function or the prototype object instead of `undefined`. */
  const ObjectPrototypeKeys: seq<string> := [
    "constructor", "__proto__", "__defineGetter__", "__defineSetter__", "__lookupGetter__",
    "__lookupSetter__", "hasOwnProperty", "isPrototypeOf", "propertyIsEnumerable",
    "toLocaleString", "toString", "valueOf"]

  function DigitChar(d: nat): (c: char)
    requires d < 10
    ensures IsDigit(c)
  {
    ('0' as int + d) as char
  }

  /** Decimal rendering of a natural number (`${n}`, `str(n)`). */
  function NatToString(n: nat): (r: string)
    ensures |r| >= 1
    ensures forall i :: 0 <= i < |r| ==> IsDigit(r[i])
    decreases n
  {
    if n < 10 then [DigitChar(n)] else NatToString(n / 10) + [DigitChar(n % 10)]
  }

  /** Decimal rendering of an integer, with a leading `-` when negative. */
  function IntToString(i: int): (r: string)
    ensures |r| >= 1
    ensures i < 0 <==> r[0] == '-'
  {
    if i < 0 then "-" + NatToString(-i) else NatToString(i)
  }
}
