/** The text primitives the PO parser and the POT printer rely on: line splitting, stripping
    and the anchored patterns for quoted strings. */
module PoText {
  import opened Wrappers

  // ---------------------------------------------------------------- lines

  /** The characters at which `str.splitlines` breaks. */
  predicate IsLineBreak(c: char) {
    c in {'\n', '\r', '\U{0B}', '\U{0C}', '\U{1C}', '\U{1D}', '\U{1E}', '\U{85}', '\U{2028}', '\U{2029}'}
  }

  /** First line break from `i` on, or the length. */
  function LineEnd(s: string, i: nat): (e: nat)
    requires i <= |s|
    ensures i <= e <= |s|
    ensures e < |s| ==> IsLineBreak(s[e])
    ensures forall j :: i <= j < e ==> !IsLineBreak(s[j])
    decreases |s| - i
  {
    if i == |s| || IsLineBreak(s[i]) then i else LineEnd(s, i + 1)
  }

  /** `s.splitlines()`: a break ends a line, `\r\n` is one break, no line after a final break. */
  function SplitLines(s: string): seq<string>
    decreases |s|
  {
    if s == [] then []
    else
      var e := LineEnd(s, 0);
      if e == |s| then [s]
      else
        var next := if s[e] == '\r' && e + 1 < |s| && s[e + 1] == '\n' then e + 2 else e + 1;
        [s[..e]] + SplitLines(s[next..])
  }

  /** `"\n".join(lines)`. */
  function JoinLines(lines: seq<string>): string {
    if lines == [] then []
    else if |lines| == 1 then lines[0]
    else lines[0] + ("\n" + JoinLines(lines[1..]))
  }

  predicate OneLine(s: string) {
    forall i :: 0 <= i < |s| ==> !IsLineBreak(s[i])
  }

  lemma LineEndIs(s: string, n: nat)
    requires n < |s| && IsLineBreak(s[n]) && forall j :: 0 <= j < n ==> !IsLineBreak(s[j])
    ensures LineEnd(s, 0) == n
  {
  }

  lemma FirstLine(line: string, rest: string)
    requires OneLine(line)
    ensures SplitLines(line + ("\n" + rest)) == [line] + SplitLines(rest)
  {
    BreakAfter(line, '\n', rest);
  }

  /** A line, a break and the rest, put together. */
  lemma Parts(line: string, mid: string, rest: string)
    ensures var s := line + (mid + rest);
            && s[..|line|] == line && s[|line| + |mid|..] == rest
            && (forall k :: 0 <= k < |mid| ==> s[|line| + k] == mid[k])
            && (rest != [] ==> s[|line| + |mid|] == rest[0])
  {
    assert line + (mid + rest) == (line + mid) + rest;
  }

  lemma BreaksAt(s: string, n: nat, next: nat)
    requires n < |s| && IsLineBreak(s[n]) && OneLine(s[..n])
    requires next == if s[n] == '\r' && n + 1 < |s| && s[n + 1] == '\n' then n + 2 else n + 1
    ensures SplitLines(s) == [s[..n]] + SplitLines(s[next..])
  {
    assert forall k :: 0 <= k < n ==> s[..n][k] == s[k];
    LineEndIs(s, n);
  }

  /** Any break character ends a line. */
  lemma BreakAfter(line: string, c: char, rest: string)
    requires OneLine(line) && IsLineBreak(c) && (c == '\r' ==> rest == [] || rest[0] != '\n')
    ensures SplitLines(line + ([c] + rest)) == [line] + SplitLines(rest)
  {
    Parts(line, [c], rest);
    BreaksAt(line + ([c] + rest), |line|, |line| + 1);
  }

  /** A carriage return and a line feed are one break. */
  lemma BothAfter(line: string, rest: string)
    requires OneLine(line)
    ensures SplitLines(line + ("\r\n" + rest)) == [line] + SplitLines(rest)
  {
    Parts(line, "\r\n", rest);
    BreaksAt(line + ("\r\n" + rest), |line|, |line| + 2);
  }

  /** Splitting joined lines gives them back, but for the empty line after the last break. */
  lemma {:induction false} SplitJoinedLines(lines: seq<string>)
    requires lines != [] && lines[|lines| - 1] == ""
    requires forall i :: 0 <= i < |lines| ==> OneLine(lines[i])
    ensures SplitLines(JoinLines(lines)) == lines[..|lines| - 1]
  {
    if |lines| > 1 {
      SplitJoinedLines(lines[1..]);
      FirstLine(lines[0], JoinLines(lines[1..]));
      assert [lines[0]] + lines[1..][..|lines| - 2] == lines[..|lines| - 1];
    }
  }

  // ---------------------------------------------------------------- whitespace

  /** `str.isspace`, which is also what `\s` matches. */
  predicate IsSpace(c: char) {
    || c in {' ', '\t', '\n', '\r', '\U{0B}', '\U{0C}', '\U{1C}', '\U{1D}', '\U{1E}', '\U{1F}', '\U{85}', '\U{A0}',
             '\U{1680}'}
    || '\U{2000}' <= c <= '\U{200A}'
    || c in {'\U{2028}', '\U{2029}', '\U{202F}', '\U{205F}', '\U{3000}'}
  }

  /** First non-space from `i` on, or the length. */
  function SkipSpace(s: string, i: nat): (j: nat)
    requires i <= |s|
    ensures i <= j <= |s|
    ensures j < |s| ==> !IsSpace(s[j])
    ensures forall k :: i <= k < j ==> IsSpace(s[k])
    decreases |s| - i
  {
    if i == |s| || !IsSpace(s[i]) then i else SkipSpace(s, i + 1)
  }

  function TrimRight(s: string): (t: string)
    ensures t <= s
    ensures t != [] ==> !IsSpace(t[|t| - 1])
    ensures forall k :: |t| <= k < |s| ==> IsSpace(s[k])
  {
    if s == [] || !IsSpace(s[|s| - 1]) then s else TrimRight(s[..|s| - 1])
  }

  /** `s.strip()`. */
  function Strip(s: string): string {
    TrimRight(s[SkipSpace(s, 0)..])
  }

  /** Text between two non-space ends is not stripped. */
  lemma StripNothing(s: string)
    requires s != [] && !IsSpace(s[0]) && !IsSpace(s[|s| - 1])
    ensures Strip(s) == s
  {
    assert SkipSpace(s, 0) == 0 && s[0..] == s;
  }

  /** Stripping keeps a first character that is no space. */
  lemma StripKeepsHead(s: string)
    requires s != [] && !IsSpace(s[0])
    ensures Strip(s) != [] && Strip(s)[0] == s[0]
  {
    assert SkipSpace(s, 0) == 0 && s[0..] == s;
  }

  predicate AllSpace(s: string) {
    forall i :: 0 <= i < |s| ==> IsSpace(s[i])
  }

  lemma {:induction false} SkipsTo(s: string, i: nat, n: nat)
    requires i <= n <= |s| && (n < |s| ==> !IsSpace(s[n])) && forall k :: i <= k < n ==> IsSpace(s[k])
    ensures SkipSpace(s, i) == n
    decreases n - i
  {
    if i < n {
      SkipsTo(s, i + 1, n);
    }
  }

  lemma {:induction false} TrimPadded(s: string, b: string)
    requires AllSpace(b) && (s != [] ==> !IsSpace(s[|s| - 1]))
    ensures TrimRight(s + b) == s
  {
    if b == [] {
      assert s + b == s;
    } else {
      var n := |b| - 1;
      TrimPadded(s, b[..n]);
      assert (s + b)[..|s + b| - 1] == s + b[..n];
    }
  }

  /** Stripping removes all space at both ends. */
  lemma StripPadded(a: string, s: string, b: string)
    requires AllSpace(a) && AllSpace(b) && (s != [] ==> !IsSpace(s[0]) && !IsSpace(s[|s| - 1]))
    ensures Strip(a + (s + b)) == s
  {
    var line := a + (s + b);
    if s == [] {
      assert s + b == b;
      assert AllSpace(line);
      SkipsTo(line, 0, |line|);
      assert line[|line|..] == [];
    } else {
      assert line[|a|] == s[0];
      assert forall k :: 0 <= k < |a| ==> line[k] == a[k];
      SkipsTo(line, 0, |a|);
      assert line[|a|..] == s + b;
      TrimPadded(s, b);
    }
  }

  // ---------------------------------------------------------------- patterns

  /** `"(.*)"\s*$` matched at position `i`: the group ends at the last quote, and only spaces
      follow that quote. */
  function QuotedAt(line: string, i: nat): Option<string>
    requires i <= |line|
  {
    var body := TrimRight(line);
    if i < |line| && line[i] == '\"' && i + 1 < |body| && body[|body| - 1] == '\"'
    then Some(body[i + 1..|body| - 1])
    else None
  }

  /** `^keyword\s+"(.*)"\s*$`. */
  function KeywordString(line: string, keyword: string): Option<string> {
    if keyword <= line then
      var i := SkipSpace(line, |keyword|);
      if i > |keyword| then QuotedAt(line, i) else None
    else None
  }

  /** `^"(.*)"\s*$`. */
  function Continuation(line: string): Option<string> {
    QuotedAt(line, 0)
  }

  predicate IsDigit(c: char) {
    '0' <= c <= '9'
  }

  function SkipDigits(s: string, i: nat): (j: nat)
    requires i <= |s|
    ensures i <= j <= |s|
    ensures forall k :: i <= k < j ==> IsDigit(s[k])
    decreases |s| - i
  {
    if i == |s| || !IsDigit(s[i]) then i else SkipDigits(s, i + 1)
  }

  /** `int(digits)`. */
  function ParseNat(s: string): nat
    requires forall k :: 0 <= k < |s| ==> IsDigit(s[k])
  {
    if s == [] then 0
    else
      assert IsDigit(s[|s| - 1]);
      10 * ParseNat(s[..|s| - 1]) + (s[|s| - 1] as int - '0' as int)
  }

  /** `^msgstr\[(\d+)\]\s+"(.*)"\s*$`. */
  function PluralString(line: string): Option<(nat, string)> {
    if "msgstr[" <= line then
      var j := SkipDigits(line, 7);
      if j > 7 && j < |line| && line[j] == ']' then
        var i := SkipSpace(line, j + 1);
        if i > j + 1 then
          match QuotedAt(line, i)
          case Some(text) => Some((ParseNat(line[7..j]), text))
          case None => None
        else None
      else None
    else None
  }

  /** A line printed as keyword, blank, quoted text is read back by its own pattern. */
  lemma KeywordLine(keyword: string, text: string)
    requires OneLine(keyword) && keyword != [] && !IsSpace(keyword[0])
    ensures var line := keyword + (" \"" + text + "\"");
            && Strip(line) == line
            && KeywordString(line, keyword) == Some(text)
  {
    var line := keyword + (" \"" + text + "\"");
    StripNothing(line);
    assert line[|keyword|] == ' ' && line[|keyword| + 1] == '\"';
    assert SkipSpace(line, |keyword|) == |keyword| + 1;
    assert TrimRight(line) == line;
    assert line[|keyword| + 2..|line| - 1] == text;
  }

  /** Any space may stand between the keyword and the text. */
  lemma KeywordSpaced(keyword: string, gap: string, text: string)
    requires gap != [] && AllSpace(gap)
    ensures KeywordString(keyword + (gap + ("\"" + text + "\"")), keyword) == Some(text)
  {
    var line, i := keyword + (gap + ("\"" + text + "\"")), |keyword| + |gap|;
    assert line == (keyword + gap) + ("\"" + text + "\"");
    assert forall k :: |keyword| <= k < i ==> line[k] == gap[k - |keyword|];
    assert line[i] == '\"';
    SkipsTo(line, |keyword|, i);
    assert TrimRight(line) == line;
    assert line[i + 1..|line| - 1] == text;
  }

  /** A line that is just quoted text is a continuation line. */
  lemma ContinuationLine(text: string)
    ensures var line := "\"" + text + "\"";
            Strip(line) == line && Continuation(line) == Some(text)
  {
    var line := "\"" + text + "\"";
    StripNothing(line);
    assert TrimRight(line) == line;
    assert line[1..|line| - 1] == text;
  }
}
