/** Lines, newline normalisation and the fenced code block that its content cannot close. */
module Fence {
  import opened Wrappers
  import opened Text

  // ---- lines ----------------------------------------------------------------------------------

  /** `lines.join(sep)`. */
  function Join(lines: seq<string>, sep: string): string {
    if lines == [] then ""
    else if |lines| == 1 then lines[0]
    else lines[0] + sep + Join(lines[1..], sep)
  }

  /** `s.split('\n')`: one more piece than there are newlines. */
  function Lines(s: string): (r: seq<string>)
    ensures |r| >= 1
  {
    if s == "" then [""]
    else if s[0] == '\n' then [""] + Lines(s[1..])
    else
      var rest := Lines(s[1..]);
      [[s[0]] + rest[0]] + rest[1..]
  }

  lemma {:induction false} JoinOfLines(s: string)
    ensures Join(Lines(s), "\n") == s
  {
    if s != "" {
      JoinOfLines(s[1..]);
      var rest := Lines(s[1..]);
      if s[0] == '\n' {
        assert Lines(s)[1..] == rest;
      } else {
        assert Lines(s)[1..] == rest[1..];
      }
    }
  }

  predicate NoNewline(s: string) {
    '\n' !in s
  }

  lemma {:induction false} LinesHaveNoNewline(s: string)
    ensures forall i :: 0 <= i < |Lines(s)| ==> NoNewline(Lines(s)[i])
  {
    if s != "" {
      LinesHaveNoNewline(s[1..]);
    }
  }

  lemma {:induction false} JoinAppend(a: seq<string>, b: seq<string>, sep: string)
    requires a != [] && b != []
    ensures Join(a + b, sep) == Join(a, sep) + sep + Join(b, sep)
  {
    if |a| == 1 {
      assert (a + b)[1..] == b;
    } else {
      assert (a + b)[1..] == a[1..] + b;
      JoinAppend(a[1..], b, sep);
    }
  }

  /** `s.replace(from, to)`: occurrences are taken from the left and do not overlap. */
  function ReplaceAll(s: string, from: string, to: string): string
    requires from != ""
    decreases |s|
  {
    if |s| < |from| then s
    else if from <= s then to + ReplaceAll(s[|from|..], from, to)
    else [s[0]] + ReplaceAll(s[1..], from, to)
  }

  // ---- newlines -------------------------------------------------------------------------------

  /** Section 2.1 of the CommonMark spec: a line ending is a newline, a carriage return, or both in a row. */
  function NormalNewlines(s: string): string {
    if s == "" then ""
    else if s[0] == '\r' then
      "\n" + NormalNewlines(if |s| > 1 && s[1] == '\n' then s[2..] else s[1..])
    else [s[0]] + NormalNewlines(s[1..])
  }

  function Normalize(code: string): string {
    ReplaceAll(ReplaceAll(code, "\r\n", "\n"), "\r", "\n")
  }

  /** The two replacements of the code read every kind of line ending as one newline. */
  lemma {:induction false} NormalizeIsNormalNewlines(s: string)
    ensures Normalize(s) == NormalNewlines(s)
    decreases |s|
  {
    if s != "" {
      if |s| > 1 && s[0] == '\r' && s[1] == '\n' {
        NormalizeIsNormalNewlines(s[2..]);
        assert "\r\n" <= s;
        ReplaceHead('\n', ReplaceAll(s[2..], "\r\n", "\n"));
      } else {
        NormalizeIsNormalNewlines(s[1..]);
        assert ReplaceAll(s, "\r\n", "\n") == [s[0]] + ReplaceAll(s[1..], "\r\n", "\n") by {
          assert |s| == 1 ==> s[1..] == "" && s == [s[0]];
        }
        ReplaceHead(s[0], ReplaceAll(s[1..], "\r\n", "\n"));
      }
    }
  }

  lemma ReplaceHead(c: char, rest: string)
    ensures ReplaceAll([c] + rest, "\r", "\n") == [if c == '\r' then '\n' else c] + ReplaceAll(rest, "\r", "\n")
  {
    var s := [c] + rest;
    assert s[1..] == rest && s[|"\r"|..] == rest;
    assert s[..1] == [c];
    assert "\r" <= s <==> "\r" == s[..1];
  }

  // ---- runs of backticks ----------------------------------------------------------------------

  function Max(a: nat, b: nat): nat {
    if a < b then b else a
  }

  /** The length of the run of backticks that ends the text. */
  function TrailingTicks(s: string): (n: nat)
    ensures n <= |s|
  {
    if s != "" && s[|s| - 1] == '`' then TrailingTicks(s[..|s| - 1]) + 1 else 0
  }

  function LongestTicks(s: string): nat {
    if s == "" then 0 else Max(LongestTicks(s[..|s| - 1]), TrailingTicks(s))
  }

  predicate AllTicks(s: string) {
    forall i :: 0 <= i < |s| ==> s[i] == '`'
  }

  lemma {:induction false} TrailingTicksCover(s: string, i: nat)
    requires i <= |s| && forall p :: i <= p < |s| ==> s[p] == '`'
    ensures |s| - i <= TrailingTicks(s)
  {
    if i < |s| {
      TrailingTicksCover(s[..|s| - 1], i);
    }
  }

  /** No run of backticks anywhere in the text is longer than the longest one. */
  lemma {:induction false} RunFits(s: string, i: nat, j: nat)
    requires i <= j <= |s| && forall p :: i <= p < j ==> s[p] == '`'
    ensures j - i <= LongestTicks(s)
  {
    if j == |s| {
      TrailingTicksCover(s, i);
    } else {
      RunFits(s[..|s| - 1], i, j);
    }
  }

  function Ticks(n: nat): (s: string)
    ensures |s| == n && AllTicks(s)
  {
    seq(n, i => '`')
  }

  function Spaces(n: nat): (s: string)
    ensures |s| == n && forall i :: 0 <= i < n ==> s[i] == ' '
  {
    seq(n, i => ' ')
  }

  // ---- the code block -------------------------------------------------------------------------

  function FenceFor(code: string): string {
    Ticks(Max(LongestTicks(code), 2) + 1)
  }

  function Indented(lines: seq<string>, indent: string): (r: seq<string>)
    ensures |r| == |lines|
    ensures forall i :: 0 <= i < |lines| ==> r[i] == indent + lines[i]
  {
    seq(|lines|, i requires 0 <= i < |lines| => indent + lines[i])
  }

  /** The block before it is indented. */
  function BareBlock(code: string, lang: string): seq<string> {
    var text := Normalize(code);
    [FenceFor(text) + lang] + Lines(text) + [FenceFor(text)]
  }

  function CodeBlockLines(code: string, indent: string, lang: string): seq<string> {
    Indented(BareBlock(code, lang), indent)
  }

  /** A fenced block with every line indented. */
  method CodeBlock(code: string, indent: string, lang: string) returns (out: seq<string>)
    ensures out == CodeBlockLines(code, indent, lang)
  {
    var normalized := Normalize(code);
    var longest, run := 0, 0;
    for i := 0 to |normalized|
      invariant run == TrailingTicks(normalized[..i])
      invariant longest == LongestTicks(normalized[..i])
    {
      assert normalized[..i + 1][..i] == normalized[..i];
      if normalized[i] == '`' {
        run := run + 1;
        longest := Max(longest, run);
      } else {
        run := 0;
      }
    }
    assert normalized[..|normalized|] == normalized;
    var fence := Ticks(Max(longest, 2) + 1);
    out := [indent + fence + lang];
    assert indent + fence + lang == indent + (fence + lang);
    var lines := Lines(normalized);
    for i := 0 to |lines|
      invariant |out| == i + 1 && out[0] == indent + (fence + lang)
      invariant forall j :: 0 <= j < i ==> out[j + 1] == indent + lines[j]
    {
      out := out + [indent + lines[i]];
    }
    out := out + [indent + fence];
    assert out == CodeBlockLines(code, indent, lang);
  }

  /** A run of `n` backticks stands at `i`. */
  predicate RunAt(s: string, i: nat, n: nat) {
    i + n <= |s| && forall p :: i <= p < i + n ==> s[p] == '`'
  }

  lemma {:induction false} TrailingIsRun(s: string)
    ensures RunAt(s, |s| - TrailingTicks(s), TrailingTicks(s))
  {
    if s != "" && s[|s| - 1] == '`' {
      TrailingIsRun(s[..|s| - 1]);
    }
  }

  lemma {:induction false} LongestIsRun(s: string) returns (i: nat)
    ensures RunAt(s, i, LongestTicks(s))
  {
    i := 0;
    if s != "" {
      i := LongestIsRun(s[..|s| - 1]);
      TrailingIsRun(s);
      if LongestTicks(s[..|s| - 1]) < TrailingTicks(s) {
        i := |s| - TrailingTicks(s);
      }
    }
  }

  /** The fence is the shortest one of three or more backticks that is longer than every run in the text. */
  lemma FenceIsShortest(code: string)
    ensures |FenceFor(code)| >= 3 && AllTicks(FenceFor(code))
    ensures forall i: nat, n: nat :: RunAt(code, i, n) ==> n < |FenceFor(code)|
    ensures |FenceFor(code)| > 3 ==> exists i: nat, n: nat :: RunAt(code, i, n) && n == |FenceFor(code)| - 1
  {
    hide LongestTicks;
    forall i: nat, n: nat | RunAt(code, i, n) ensures n < |FenceFor(code)| {
      RunFits(code, i, i + n);
    }
    var i := LongestIsRun(code);
  }

  // ---- reading a fence, by section 4.5 of the CommonMark spec ---------------------------------

  /** How many leading characters are `c`. */
  function Leading(s: string, c: char): (n: nat)
    ensures n <= |s| && (forall i :: 0 <= i < n ==> s[i] == c) && (n < |s| ==> s[n] != c)
  {
    if s != "" && s[0] == c then Leading(s[1..], c) + 1 else 0
  }

  predicate OnlyBlanks(s: string) {
    forall i :: 0 <= i < |s| ==> s[i] == ' ' || s[i] == '\t'
  }

  /** An opening fence: at most three spaces, at least three backticks, an info string without backticks. */
  predicate Opens(line: string) {
    var k := Leading(line, ' ');
    k <= 3 && Leading(line[k..], '`') >= 3 && '`' !in line[k + Leading(line[k..], '`')..]
  }

  /** A closing fence for one of `n` backticks: at most three spaces, at least `n` backticks, then only blanks. */
  predicate Closes(line: string, n: nat) {
    var k := Leading(line, ' ');
    var ticks := Leading(line[k..], '`');
    k <= 3 && ticks >= n && OnlyBlanks(line[k + ticks..])
  }

  /** Content lines lose as much indentation as the opening fence had, at most. */
  function Outdent(line: string, k: nat): string {
    var n := Leading(line, ' ');
    if n <= k then line[n..] else line[k..]
  }

  /** The content lines up to the closing fence, and what follows it. */
  function ReadContent(lines: seq<string>, k: nat, n: nat): (seq<string>, seq<string>) {
    if lines == [] then ([], [])
    else if Closes(lines[0], n) then ([], lines[1..])
    else
      var rest := ReadContent(lines[1..], k, n);
      ([Outdent(lines[0], k)] + rest.0, rest.1)
  }

  datatype Fenced = Fenced(info: string, content: seq<string>, rest: seq<string>)

  function ReadFence(lines: seq<string>): Option<Fenced> {
    if lines == [] || !Opens(lines[0]) then None
    else
      var k := Leading(lines[0], ' ');
      var n := Leading(lines[0][k..], '`');
      var body := ReadContent(lines[1..], k, n);
      Some(Fenced(Trim(lines[0][k + n..]), body.0, body.1))
  }

  /** The lines of a list item whose content starts at column `w`; None when a line is not part of the item. */
  function ItemLines(lines: seq<string>, w: nat): Option<seq<string>> {
    if lines == [] then Some([])
    else if |lines[0]| < w || lines[0][..w] != Spaces(w) then None
    else
      match ItemLines(lines[1..], w)
      case None => None
      case Some(rest) => Some([lines[0][w..]] + rest)
  }

  lemma {:induction false} ItemLinesOfIndented(lines: seq<string>, w: nat)
    ensures ItemLines(Indented(lines, Spaces(w)), w) == Some(lines)
  {
    if lines != [] {
      assert Indented(lines, Spaces(w))[1..] == Indented(lines[1..], Spaces(w));
      ItemLinesOfIndented(lines[1..], w);
      assert lines == [lines[0]] + lines[1..];
    }
  }

  lemma {:induction false} FirstLine(s: string)
    ensures Lines(s)[0] <= s
  {
    if s != "" && s[0] != '\n' {
      FirstLine(s[1..]);
      assert s == [s[0]] + s[1..];
    }
  }

  /** Every line of a text is a stretch of it. */
  lemma {:induction false} LineIsStretch(s: string, i: nat)
    requires i < |Lines(s)|
    ensures exists a, b :: 0 <= a <= b <= |s| && s[a..b] == Lines(s)[i]
  {
    if i == 0 {
      FirstLine(s);
      assert s[0..|Lines(s)[0]|] == Lines(s)[0];
    } else {
      var k := if s[0] == '\n' then i - 1 else i;
      LineIsStretch(s[1..], k);
      var a, b :| 0 <= a <= b <= |s| - 1 && s[1..][a..b] == Lines(s[1..])[k];
      assert s[a + 1..b + 1] == s[1..][a..b];
    }
  }

  /** The backticks a line begins with, after its blanks, are a run of the text it is a stretch of. */
  lemma LineTicks(text: string, a: nat, b: nat)
    requires a <= b <= |text|
    ensures var line := text[a..b];
            Leading(line[Leading(line, ' ')..], '`') <= LongestTicks(text)
  {
    hide LongestTicks, Leading;
    var line := text[a..b];
    var k := Leading(line, ' ');
    var ticks := Leading(line[k..], '`');
    forall p | a + k <= p < a + k + ticks ensures text[p] == '`' {
      assert text[p] == line[p - a] == line[k..][p - a - k];
    }
    RunFits(text, a + k, a + k + ticks);
  }

  /** No line of the content can close the fence chosen for it. */
  lemma LineCannotClose(text: string, i: nat)
    requires i < |Lines(text)|
    ensures !Closes(Lines(text)[i], |FenceFor(text)|)
  {
    hide Lines, LongestTicks, Leading, OnlyBlanks, Ticks;
    LineIsStretch(text, i);
    var a, b :| 0 <= a <= b <= |text| && text[a..b] == Lines(text)[i];
    LineTicks(text, a, b);
  }

  lemma LeadingOfFence(fence: string, lang: string)
    requires AllTicks(fence) && fence != ""
    requires lang == "" || lang[0] != '`'
    ensures Leading(fence + lang, ' ') == 0
    ensures Leading(fence + lang, '`') == |fence|
  {
    var s := fence + lang;
    assert forall i :: 0 <= i < |fence| ==> s[i] == fence[i];
    if |fence| < |s| {
      assert s[|fence|] == lang[0];
    }
  }

  lemma FenceCloses(fence: string)
    requires AllTicks(fence) && fence != ""
    ensures Closes(fence, |fence|)
  {
    LeadingOfFence(fence, "");
    assert fence + "" == fence && fence[0..] == fence;
  }

  lemma {:induction false} ReadContentOf(lines: seq<string>, fence: string)
    requires forall i :: 0 <= i < |lines| ==> !Closes(lines[i], |fence|)
    requires AllTicks(fence) && fence != ""
    ensures ReadContent(lines + [fence], 0, |fence|) == (lines, [])
  {
    if lines == [] {
      FenceCloses(fence);
      assert [] + [fence] == [fence] && [fence][1..] == [];
    } else {
      assert (lines + [fence])[0] == lines[0] && (lines + [fence])[1..] == lines[1..] + [fence];
      ReadContentOf(lines[1..], fence);
      assert Outdent(lines[0], 0) == lines[0];
      assert [lines[0]] + lines[1..] == lines;
    }
  }

  /** A language name that can follow a fence: trimmed and without backticks. */
  predicate GoodLang(lang: string) {
    '`' !in lang && Trimmed(lang)
  }

  lemma BareBlockRead(text: string, fence: string, lang: string)
    requires GoodLang(lang) && fence == FenceFor(text)
    ensures ReadFence([fence + lang] + Lines(text) + [fence]) == Some(Fenced(lang, Lines(text), []))
  {
    hide Lines, LongestTicks, Leading, Ticks, Closes, Outdent, ReadContent, Trim;
    var block := [fence + lang] + Lines(text) + [fence];
    forall i | 0 <= i < |Lines(text)| ensures !Closes(Lines(text)[i], |fence|) {
      LineCannotClose(text, i);
    }
    ReadContentOf(Lines(text), fence);
    LeadingOfFence(fence, lang);
    assert block[0] == fence + lang && block[0][0..] == block[0] && block[0][|fence|..] == lang;
    assert block[1..] == Lines(text) + [fence];
  }

  /** Reading a written block back gives exactly the newline-normalised command, for every command:
      nothing inside it closes the fence early, and nothing is left over. */
  lemma FenceRoundTrip(code: string, w: nat, lang: string)
    requires GoodLang(lang)
    ensures ItemLines(CodeBlockLines(code, Spaces(w), lang), w).Some?
    ensures ReadFence(ItemLines(CodeBlockLines(code, Spaces(w), lang), w).value)
         == Some(Fenced(lang, Lines(NormalNewlines(code)), []))
    ensures Join(Lines(NormalNewlines(code)), "\n") == NormalNewlines(code)
  {
    hide Lines, FenceFor, ReadFence, ItemLines, Indented, ReplaceAll, NormalNewlines;
    var text := Normalize(code);
    NormalizeIsNormalNewlines(code);
    ItemLinesOfIndented(BareBlock(code, lang), w);
    BareBlockRead(text, FenceFor(text), lang);
    JoinOfLines(text);
  }
}
