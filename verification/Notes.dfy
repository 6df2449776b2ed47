/** The note of a version made from a commit: its subject without the number the service puts in front. */
module Notes {
  import opened Text
  import opened Canon
  import opened Commits

  function DigitsFrom(s: string, i: nat): (n: nat)
    requires i <= |s|
    ensures i <= n <= |s| && (forall k :: i <= k < n ==> IsDigit(s[k])) && (n < |s| ==> !IsDigit(s[n]))
    decreases |s| - i
  {
    if i < |s| && IsDigit(s[i]) then DigitsFrom(s, i + 1) else i
  }

  function BlanksFrom(s: string, i: nat): (n: nat)
    requires i <= |s|
    ensures i <= n <= |s| && (forall k :: i <= k < n ==> s[k] == ' ') && (n < |s| ==> s[n] != ' ')
    decreases |s| - i
  {
    if i < |s| && s[i] == ' ' then BlanksFrom(s, i + 1) else i
  }

  /** Cuts `v<digits>:` and the blanks after it; anything else stays as it is. */
  function StripPrefix(s: string): string {
    if s == "" || s[0] != 'v' then s
    else
      var i := DigitsFrom(s, 1);
      if i > 1 && i < |s| && s[i] == ':' then s[BlanksFrom(s, i + 1)..] else s
  }

  method StripVPrefix(s: string) returns (r: string)
    ensures r == StripPrefix(s)
  {
    if s != "" && s[0] == 'v' {
      var i := 1;
      while i < |s| && IsDigit(s[i])
        invariant 1 <= i <= |s| && DigitsFrom(s, i) == DigitsFrom(s, 1)
      {
        i := i + 1;
      }
      if i > 1 && i < |s| && s[i] == ':' {
        var k := i + 1;
        while k < |s| && s[k] == ' '
          invariant i + 1 <= k <= |s| && BlanksFrom(s, k) == BlanksFrom(s, i + 1)
        {
          k := k + 1;
        }
        return s[k..];
      }
    }
    return s;
  }

  /** White space as git's C code knows it. */
  predicate AsciiSpace(c: char) {
    c == ' ' || '\t' <= c <= '\r'
  }

  function CutEnd(s: string): (r: string)
    ensures |r| <= |s| && r == s[..|r|]
    ensures r != "" ==> !AsciiSpace(r[|r| - 1])
    ensures forall i :: |r| <= i < |s| ==> AsciiSpace(s[i])
  {
    if s == "" || !AsciiSpace(s[|s| - 1]) then s else CutEnd(s[..|s| - 1])
  }

  function FirstLine(message: string): string {
    if message == "" || message[0] == '\n' then "" else [message[0]] + FirstLine(message[1..])
  }

  function SkipNewlines(message: string): string {
    if message != "" && message[0] == '\n' then SkipNewlines(message[1..]) else message
  }

  /** The subject of a commit: its first line without the white space at its end. */
  function Subject(message: string): string {
    CutEnd(FirstLine(SkipNewlines(message)))
  }

  function NoteFor(message: string): string {
    var stripped := StripPrefix(Subject(message));
    var cut := if |stripped| <= 200 then stripped else stripped[..200];
    if Blank(cut) then "pushed via git" else cut
  }

  lemma {:induction false} FirstOfLine(line: string, body: string)
    requires '\n' !in line
    ensures FirstLine(line + "\n" + body) == line
  {
    var s := line + "\n" + body;
    if line != "" {
      assert s[1..] == line[1..] + "\n" + body;
      FirstOfLine(line[1..], body);
    }
  }

  lemma {:induction false} CutEndOf(head: string, rest: string)
    ensures CutEnd(head + rest) == if CutEnd(rest) == "" then CutEnd(head) else head + CutEnd(rest)
  {
    if rest == "" {
      assert head + rest == head;
    } else if AsciiSpace(rest[|rest| - 1]) {
      assert (head + rest)[..|head + rest| - 1] == head + rest[..|rest| - 1];
      CutEndOf(head, rest[..|rest| - 1]);
    }
  }

  lemma {:induction false} DigitsShift(s: string, d: string, k: nat)
    requires |s| > |d| + 1 && s[1..|d| + 1] == d && AllDigits(d) && !IsDigit(s[|d| + 1]) && k <= |d|
    ensures DigitsFrom(s, 1 + k) == |d| + 1
    decreases |d| - k
  {
    if k < |d| {
      assert s[1 + k] == d[k];
      DigitsShift(s, d, k + 1);
    }
  }

  /** The parts of `v<digits>:` and what follows. */
  predicate Prefixed(s: string, d: string, rest: string) {
    && d != "" && AllDigits(d) && |s| == |d| + 2 + |rest|
    && s[0] == 'v' && s[1..|d| + 1] == d && s[|d| + 1] == ':' && s[|d| + 2..] == rest
  }

  lemma PrefixParts(d: string, rest: string)
    requires d != "" && AllDigits(d)
    ensures Prefixed("v" + d + ":" + rest, d, rest)
  {
    hide AllDigits;
  }

  lemma PrefixCut(s: string, d: string, rest: string)
    requires Prefixed(s, d, rest)
    ensures StripPrefix(s) == rest[BlanksFrom(rest, 0)..]
  {
    hide DigitsFrom, BlanksFrom, AllDigits;
    var i := |d| + 1;
    DigitsShift(s, d, 0);
    BlanksShift(s, rest, i + 1, 0);
    assert s[i + 1 + BlanksFrom(rest, 0)..] == rest[BlanksFrom(rest, 0)..];
  }

  /** The prefix the service writes is cut whole, whatever the number, with the blanks after it and nothing else. */
  lemma OwnPrefixStripped(n: nat, note: string)
    ensures StripPrefix("v" + Dec(n) + ": " + note) == note[BlanksFrom(note, 0)..]
    ensures StripPrefix("v" + Dec(n) + ":") == ""
  {
    hide StripPrefix, Dec, AllDigits, BlanksFrom, Prefixed;
    var d := Dec(n);
    var rest := " " + note;
    assert "v" + d + ": " + note == "v" + d + ":" + rest;
    PrefixParts(d, rest);
    PrefixCut("v" + d + ":" + rest, d, rest);
    BlanksShift(rest, note, 1, 0);
    assert BlanksFrom(rest, 0) == BlanksFrom(rest, 1) by { OneBlank(note); }
    assert rest[1 + BlanksFrom(note, 0)..] == note[BlanksFrom(note, 0)..];
    PrefixParts(d, "");
    assert "v" + d + ":" + "" == "v" + d + ":";
    PrefixCut("v" + d + ":", d, "");
  }

  lemma OneBlank(note: string)
    ensures BlanksFrom(" " + note, 0) == BlanksFrom(" " + note, 1)
  {
  }

  lemma {:induction false} BlanksShift(s: string, note: string, at: nat, k: nat)
    requires at <= |s| && s[at..] == note && k <= |note|
    ensures BlanksFrom(s, at + k) == at + BlanksFrom(note, k)
    decreases |note| - k
  {
    if k < |note| {
      assert s[at + k] == note[k];
      BlanksShift(s, note, at, k + 1);
    }
  }

  predicate StockNote(note: string) {
    note == "" || note == "initial" || note == "edit" || note == "seeded"
  }

  /** A line of at most two hundred characters that says something of its own, with no white space lost at either end. */
  predicate PlainNote(note: string) {
    && !StockNote(note) && '\n' !in note
    && !Blank(note) && |note| <= 200 && note[0] != ' ' && !AsciiSpace(note[|note| - 1])
  }

  lemma DigitsNoNewline(n: nat)
    ensures '\n' !in Dec(n)
  {
    hide Dec;
    assert forall i :: 0 <= i < |Dec(n)| ==> IsDigit(Dec(n)[i]);
  }

  /** The note that comes back: nothing of a blank one, else the note without the ends git and the service cut. */
  function Returned(note: string): string {
    var kept := CutEnd(note);
    var stripped := kept[BlanksFrom(kept, 0)..];
    var cut := if |stripped| <= 200 then stripped else stripped[..200];
    if Blank(cut) then "pushed via git" else cut
  }

  lemma MessageLine(v: VersionData)
    requires v.version >= 0 && !StockNote(v.note)
    ensures CommitMessage(v) == "v" + Dec(v.version) + ": " + v.note + "\n"
  {
    hide Dec;
  }

  lemma SubjectOfLine(line: string)
    requires '\n' !in line && line != ""
    ensures Subject(line + "\n") == CutEnd(line)
  {
    hide FirstLine, CutEnd;
    assert (line + "\n")[0] == line[0] && line + "\n" + "" == line + "\n";
    FirstOfLine(line, "");
  }

  lemma HeadCut(n: nat, note: string)
    ensures CutEnd("v" + Dec(n) + ": " + note)
         == if CutEnd(note) == "" then "v" + Dec(n) + ":" else "v" + Dec(n) + ": " + CutEnd(note)
  {
    hide Dec, CutEnd;
    CutEndOf("v" + Dec(n) + ": ", note);
    CutEndOf("v" + Dec(n), ": ");
    ColonStays();
    assert "v" + Dec(n) + ": " == "v" + Dec(n) + (": ");
  }

  lemma NoteReturned(v: VersionData)
    requires v.version >= 0 && !StockNote(v.note) && '\n' !in v.note
    ensures NoteFor(CommitMessage(v)) == Returned(v.note)
  {
    hide Blank, StripPrefix, Dec, CutEnd, BlanksFrom, CommitMessage, Subject;
    DigitsNoNewline(v.version);
    MessageLine(v);
    SubjectOfLine("v" + Dec(v.version) + ": " + v.note);
    HeadCut(v.version, v.note);
    OwnPrefixStripped(v.version, CutEnd(v.note));
    if CutEnd(v.note) == "" {
      NoBlanks();
    }
  }

  lemma NoBlanks()
    ensures BlanksFrom("", 0) == 0
  {
  }

  lemma ColonStays()
    ensures CutEnd(": ") == ":"
  {
    assert ": "[..1] == ":";
  }

  lemma StockBlank()
    ensures !Blank("pushed via git")
  {
    BlankIsAllSpace("pushed via git");
    assert "pushed via git"[0] == 'p';
  }

  /** Where a note loses something at either end, what comes back is another one. */
  lemma LossyNote(note: string)
    requires !StockNote(note) && note != "" && (Blank(note) || note[0] == ' ' || AsciiSpace(note[|note| - 1]))
    ensures Returned(note) != note
  {
    hide Blank, StockNote;
    StockBlank();
    var kept := CutEnd(note);
    var stripped := kept[BlanksFrom(kept, 0)..];
    var cut := if |stripped| <= 200 then stripped else stripped[..200];
    if Blank(note) {
      forall i | 0 <= i < |cut| ensures cut[i] == note[BlanksFrom(kept, 0) + i] {}
      BlankIsAllSpace(note);
      BlankIsAllSpace(cut);
    } else if note[0] == ' ' {
      BlankIsAllSpace("");
      assert cut != "" ==> cut[0] != ' ';
    } else {
      assert |cut| < |note|;
    }
  }

  lemma KeptNote(note: string)
    requires note != "" && !Blank(note) && note[0] != ' ' && !AsciiSpace(note[|note| - 1])
    ensures Returned(note) == note <==> |note| <= 200
  {
    hide Blank;
    assert CutEnd(note) == note && BlanksFrom(note, 0) == 0 && note[0..] == note;
    if |note| > 200 {
      assert |"pushed via git"| <= 200;
    }
  }

  lemma LineReturned(v: VersionData)
    requires v.version >= 0 && !StockNote(v.note) && '\n' !in v.note
    ensures NoteFor(CommitMessage(v)) == v.note <==> PlainNote(v.note)
  {
    hide CommitMessage, NoteFor, Blank, Returned, AsciiSpace;
    NoteReturned(v);
    if Blank(v.note) || v.note[0] == ' ' || AsciiSpace(v.note[|v.note| - 1]) {
      LossyNote(v.note);
    } else {
      KeptNote(v.note);
    }
  }

  lemma {:induction false} FirstLineIsLine(message: string)
    ensures '\n' !in FirstLine(message)
  {
    if message != "" && message[0] != '\n' {
      FirstLineIsLine(message[1..]);
    }
  }

  /** A note made from a commit is always one line. */
  lemma NoteIsLine(message: string)
    ensures '\n' !in NoteFor(message)
  {
    hide FirstLine, SkipNewlines, CutEnd, Blank;
    var line := FirstLine(SkipNewlines(message));
    FirstLineIsLine(SkipNewlines(message));
    assert forall i :: 0 <= i < |Subject(message)| ==> Subject(message)[i] == line[i];
    StrippedIsEnd(Subject(message));
  }

  lemma StrippedIsEnd(s: string)
    ensures exists k :: 0 <= k <= |s| && StripPrefix(s) == s[k..]
  {
    assert s == s[0..];
  }

  /** A stock note leaves only the name of the version in the subject. */
  lemma StockNoteReturned(v: VersionData)
    requires v.version >= 0 && StockNote(v.note)
    ensures Subject(CommitMessage(v)) == "v" + Dec(v.version)
    ensures NoteFor(CommitMessage(v)) != v.note
  {
    hide Dec, CutEnd, Subject, Blank;
    DigitsNoNewline(v.version);
    CutEndOfDigits(v.version);
    SubjectOfLine("v" + Dec(v.version));
    var subject := "v" + Dec(v.version);
    BareNameStays(subject);
    StockBlank();
    VBlank(subject);
    assert v.note == "" || v.note[0] != 'v';
    assert v.note != "pushed via git";
  }

  lemma BareNameStays(s: string)
    requires |s| > 1 && s[0] == 'v' && AllDigits(s[1..])
    ensures StripPrefix(s) == s
  {
    assert forall k :: 1 <= k < |s| ==> s[k] == s[1..][k - 1];
  }

  lemma VBlank(s: string)
    requires s != "" && s[0] == 'v'
    ensures forall n :: 0 < n <= |s| ==> !Blank(s[..n])
  {
    forall n | 0 < n <= |s| ensures !Blank(s[..n]) {
      BlankIsAllSpace(s[..n]);
      assert s[..n][0] == 'v';
    }
  }

  lemma CutEndOfDigits(n: nat)
    ensures CutEnd("v" + Dec(n)) == "v" + Dec(n)
  {
    hide Dec;
    assert IsDigit(Dec(n)[|Dec(n)| - 1]);
  }

  /** The note of a commit made elsewhere: its first line, two hundred characters at most, or a stock phrase when there
      is nothing to read in them. */
  lemma ForeignNote(line: string, body: string)
    requires '\n' !in line && line != "" && line[0] != 'v' && !AsciiSpace(line[|line| - 1])
    ensures var cut := if |line| <= 200 then line else line[..200];
            NoteFor(line + "\n" + body) == if exists i :: 0 <= i < |cut| && !IsSpace(cut[i]) then cut else "pushed via git"
  {
    hide FirstLine, CutEnd, Blank;
    var message := line + "\n" + body;
    assert message[0] == line[0] && line[0] in line && SkipNewlines(message) == message;
    FirstOfLine(line, body);
    assert CutEnd(line) == line && Subject(message) == line && StripPrefix(line) == line;
    BlankIsAllSpace(if |line| <= 200 then line else line[..200]);
  }

  /** A web write whose rows were lost gets its own note back when its commit is projected exactly when the note is
      plain: of every note, whatever its lines and blanks. */
  lemma NoteComesBack(v: VersionData)
    requires v.version >= 0
    ensures NoteFor(CommitMessage(v)) == v.note <==> PlainNote(v.note)
  {
    hide CommitMessage, NoteFor, Blank;
    NoteIsLine(CommitMessage(v));
    if StockNote(v.note) {
      StockNoteReturned(v);
    } else if '\n' !in v.note {
      LineReturned(v);
    }
  }
}
