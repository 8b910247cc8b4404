/** RFC 5545 export of followed fixtures: TEXT escaping, line folding, the calendar text. */
module Calendar {
  import opened Prelude

  // ---------------------------------------------------------------------
  // Escaping (section 3.3.11 of RFC 5545)
  // ---------------------------------------------------------------------

  /** `str.replace`: left to right, without overlap. */
  function Replace(s: string, old_: string, new_: string): string
    requires old_ != []
  {
    if |s| < |old_| then s
    else if s[..|old_|] == old_ then new_ + Replace(s[|old_|..], old_, new_)
    else [s[0]] + Replace(s[1..], old_, new_)
  }

  const CR := "\r"
  const LF := "\n"
  const CRLF := "\r\n"

  function EscapeMarks(value: string): string {
    Replace(Replace(Replace(value, "\\", "\\\\"), ";", "\\;"), ",", "\\,")
  }

  function EscapeBreaks(value: string): string {
    Replace(Replace(Replace(value, CRLF, "\\n"), LF, "\\n"), CR, "\\n")
  }

  function Escape(value: string): string { EscapeBreaks(EscapeMarks(value)) }

  /** Reading a TEXT value back. */
  function Unescape(text: string): string {
    if text == [] then []
    else if text[0] == '\\' && |text| > 1 then
      [if text[1] == 'n' || text[1] == 'N' then '\n' else text[1]] + Unescape(text[2..])
    else [text[0]] + Unescape(text[1..])
  }

  /** Every line break written as one line feed. */
  function Normalised(value: string): string {
    if value == [] then []
    else if value[0] == '\r' && |value| > 1 && value[1] == '\n' then ['\n'] + Normalised(value[2..])
    else [if value[0] == '\r' then '\n' else value[0]] + Normalised(value[1..])
  }

  lemma ReplaceAt(s: string, old_: string, new_: string)
    requires old_ != []
    ensures Replace(old_ + s, old_, new_) == new_ + Replace(s, old_, new_)
  {
    assert (old_ + s)[..|old_|] == old_ && (old_ + s)[|old_|..] == s;
  }

  lemma ReplacePast(c: char, s: string, old_: string, new_: string)
    requires old_ != [] && (c != old_[0] || (|old_| == 2 && (s == [] || s[0] != old_[1])))
    ensures Replace([c] + s, old_, new_) == [c] + Replace(s, old_, new_)
  {
    var t := [c] + s;
    if |t| >= |old_| {
      assert t[..|old_|][0] == c;
      assert |old_| == 2 ==> t[..2][1] == s[0];
      assert t[1..] == s;
    } else {
      assert |s| < |old_|;
    }
  }

  /** Two characters the replacement leaves alone. */
  lemma ReplacePast2(c: char, d: char, s: string, old_: string, new_: string)
    requires old_ != [] && c != old_[0] && d != old_[0]
    ensures Replace([c, d] + s, old_, new_) == [c, d] + Replace(s, old_, new_)
  {
    assert [c, d] + s == [c] + ([d] + s);
    ReplacePast(c, [d] + s, old_, new_);
    ReplacePast(d, s, old_, new_);
    assert [c] + ([d] + Replace(s, old_, new_)) == [c, d] + Replace(s, old_, new_);
  }

  predicate IsMark(c: char) { c == '\\' || c == ';' || c == ',' }

  /** The first three replacements, one character at a time. */
  lemma MarksStep(c: char, s: string)
    ensures EscapeMarks([c] + s) == (if IsMark(c) then ['\\', c] else [c]) + EscapeMarks(s)
  {
    hide Replace;
    var one := Replace(s, "\\", "\\\\");
    var two := Replace(one, ";", "\\;");
    if c == '\\' {
      ReplaceAt(s, "\\", "\\\\");
      ReplacePast2('\\', '\\', one, ";", "\\;");
      ReplacePast2('\\', '\\', two, ",", "\\,");
    } else {
      ReplacePast(c, s, "\\", "\\\\");
      if c == ';' {
        ReplaceAt(one, ";", "\\;");
        ReplacePast2('\\', ';', two, ",", "\\,");
      } else {
        ReplacePast(c, one, ";", "\\;");
        if c == ',' { ReplaceAt(two, ",", "\\,"); } else { ReplacePast(c, two, ",", "\\,"); }
      }
    }
  }

  /** A line break at the front of the text. */
  lemma BreaksAtBreak(brk: string, s: string)
    requires brk == CRLF || brk == LF || (brk == CR && (s == [] || s[0] != '\n'))
    ensures EscapeBreaks(brk + s) == "\\n" + EscapeBreaks(s)
  {
    hide Replace;
    var one := Replace(s, CRLF, "\\n");
    var two := Replace(one, LF, "\\n");
    if brk == CRLF {
      ReplaceAt(s, CRLF, "\\n");
      ReplacePast2('\\', 'n', one, LF, "\\n");
      ReplacePast2('\\', 'n', two, CR, "\\n");
    } else if brk == LF {
      ReplacePast('\n', s, CRLF, "\\n");
      ReplaceAt(one, LF, "\\n");
      ReplacePast2('\\', 'n', two, CR, "\\n");
    } else {
      ReplacePast('\r', s, CRLF, "\\n");
      ReplacePast('\r', one, LF, "\\n");
      ReplaceAt(two, CR, "\\n");
    }
  }

  lemma BreaksPast(c: char, s: string)
    requires c != '\r' && c != '\n'
    ensures EscapeBreaks([c] + s) == [c] + EscapeBreaks(s)
  {
    hide Replace;
    var one := Replace(s, CRLF, "\\n");
    ReplacePast(c, s, CRLF, "\\n");
    ReplacePast(c, one, LF, "\\n");
    ReplacePast(c, Replace(one, LF, "\\n"), CR, "\\n");
  }

  /** How many characters of a text one escape piece stands for. */
  function PieceLength(value: string): (n: nat)
    requires value != []
    ensures 1 <= n <= |value|
  {
    if value[0] == '\r' && |value| > 1 && value[1] == '\n' then 2 else 1
  }

  function Piece(c: char): string {
    if c == '\r' || c == '\n' then "\\n" else if IsMark(c) then ['\\', c] else [c]
  }

  lemma MarksHead(s: string)
    ensures EscapeMarks(s) != [] && EscapeMarks(s)[0] == '\n' ==> s != [] && s[0] == '\n'
  {
    if s != [] {
      MarksStep(s[0], s[1..]);
      assert s == [s[0]] + s[1..];
    }
  }

  /** The six chained replacements amount to one pass over the text. */
  lemma EscapeStep(value: string)
    requires value != []
    ensures Escape(value) == Piece(value[0]) + Escape(value[PieceLength(value)..])
  {
    hide EscapeMarks, EscapeBreaks;
    var c, s := value[0], value[1..];
    assert value == [c] + s;
    MarksStep(c, s);
    if c == '\r' {
      if s != [] && s[0] == '\n' {
        assert s == ['\n'] + s[1..] && value[2..] == s[1..];
        MarksStep('\n', s[1..]);
        BreaksAtBreak(CRLF, EscapeMarks(value[2..]));
        assert ['\r'] + (['\n'] + EscapeMarks(value[2..])) == CRLF + EscapeMarks(value[2..]);
      } else {
        MarksHead(s);
        BreaksAtBreak(CR, EscapeMarks(s));
      }
    } else if c == '\n' {
      BreaksAtBreak(LF, EscapeMarks(s));
    } else if IsMark(c) {
      assert ['\\', c] + EscapeMarks(s) == ['\\'] + ([c] + EscapeMarks(s));
      BreaksPast('\\', [c] + EscapeMarks(s));
      BreaksPast(c, EscapeMarks(s));
      assert ['\\'] + ([c] + EscapeBreaks(EscapeMarks(s))) == ['\\', c] + EscapeBreaks(EscapeMarks(s));
    } else {
      BreaksPast(c, EscapeMarks(s));
    }
  }

  predicate OneLine(text: string) { '\r' !in text && '\n' !in text }

  /** An escaped text holds no line break, and reads back as the original with its line
      breaks normalised, whatever text comes after it. */
  lemma {:induction false} EscapeRoundTrips(value: string, rest: string)
    ensures OneLine(Escape(value))
    ensures Unescape(Escape(value) + rest) == Normalised(value) + Unescape(rest)
    decreases |value|
  {
    hide Escape, Unescape, OneLine;
    if value == [] {
      EmptyEscape();
      assert Escape(value) + rest == rest;
      NormalisedStep(value);
    } else {
      EscapeStep(value);
      var tail := value[PieceLength(value)..];
      EscapeRoundTrips(tail, rest);
      OneLinePiece(value[0], Escape(tail));
      UnescapePiece(value[0], Escape(tail) + rest);
      assert Escape(value) + rest == Piece(value[0]) + (Escape(tail) + rest);
      NormalisedStep(value);
    }
  }

  lemma EmptyEscape()
    ensures Escape([]) == [] && OneLine([])
  {
  }

  lemma OneLinePiece(c: char, tail: string)
    requires OneLine(tail)
    ensures OneLine(Piece(c) + tail)
  {
  }

  lemma UnescapePiece(c: char, tail: string)
    ensures Unescape(Piece(c) + tail) == [if c == '\r' then '\n' else c] + Unescape(tail)
  {
    var t := Piece(c) + tail;
    assert t[|Piece(c)|..] == tail;
  }

  lemma NormalisedStep(value: string)
    ensures value == [] ==> Normalised(value) == []
    ensures value != [] ==>
      Normalised(value) == [if value[0] == '\r' then '\n' else value[0]] + Normalised(value[PieceLength(value)..])
  {
  }

  /** A text without backslashes reads as itself. */
  lemma {:induction false} UnescapePlain(text: string, rest: string)
    requires '\\' !in text
    ensures Unescape(text + rest) == text + Unescape(rest)
  {
    if text == [] {
      assert text + rest == rest;
    } else {
      assert text[0] in text;
      assert (text + rest)[1..] == text[1..] + rest;
      UnescapePlain(text[1..], rest);
    }
  }

  // ---------------------------------------------------------------------
  // Folding (section 3.1 of RFC 5545)
  // ---------------------------------------------------------------------

  /** Octets of one code point in UTF-8. */
  function Utf8Length(c: char): (n: nat)
    ensures 1 <= n <= 4
  {
    var k := c as int;
    if k < 0x80 then 1 else if k < 0x800 then 2 else if k < 0x10000 then 3 else 4
  }

  function Octets(s: string): nat {
    if s == [] then 0 else Octets(s[..|s| - 1]) + Utf8Length(s[|s| - 1])
  }

  /** The UTF-8 encoding of one code point, lead byte first. */
  function Utf8(c: char): (bytes: seq<int>)
    ensures forall i :: 0 <= i < |bytes| ==> 0 <= bytes[i] < 256
  {
    var k := c as int;
    if k < 0x80 then [k]
    else if k < 0x800 then [0xC0 + k / 64, 0x80 + k % 64]
    else if k < 0x10000 then [0xE0 + k / 4096, 0x80 + k / 64 % 64, 0x80 + k % 64]
    else [0xF0 + k / 262144, 0x80 + k / 4096 % 64, 0x80 + k / 64 % 64, 0x80 + k % 64]
  }

  /** The code point its lead byte announces. */
  function CodePoint(bytes: seq<int>): int {
    if bytes == [] then -1
    else if bytes[0] < 0x80 && |bytes| == 1 then bytes[0]
    else if 0xC0 <= bytes[0] < 0xE0 && |bytes| == 2 then (bytes[0] - 0xC0) * 64 + (bytes[1] - 0x80)
    else if 0xE0 <= bytes[0] < 0xF0 && |bytes| == 3 then
      (bytes[0] - 0xE0) * 4096 + (bytes[1] - 0x80) * 64 + (bytes[2] - 0x80)
    else if 0xF0 <= bytes[0] && |bytes| == 4 then
      (bytes[0] - 0xF0) * 262144 + (bytes[1] - 0x80) * 4096 + (bytes[2] - 0x80) * 64 + (bytes[3] - 0x80)
    else -1
  }

  /** The octet count is that of the encoding, which decodes to the code point. */
  lemma Utf8RoundTrips(c: char)
    ensures |Utf8(c)| == Utf8Length(c) && CodePoint(Utf8(c)) == c as int
  {
    var k := c as int;
    Digits(k);
  }

  lemma Digits(k: int)
    requires 0 <= k
    ensures k == k / 64 * 64 + k % 64
    ensures k == k / 4096 * 4096 + k / 64 % 64 * 64 + k % 64
    ensures k == k / 262144 * 262144 + k / 4096 % 64 * 4096 + k / 64 % 64 * 64 + k % 64
  {
    assert k / 64 / 64 == k / 4096;
    assert k / 4096 / 64 == k / 262144;
  }

  function Encoded(s: string): seq<int> {
    if s == [] then [] else Encoded(s[..|s| - 1]) + Utf8(s[|s| - 1])
  }

  /** A line's octets are the bytes of its encoding. */
  lemma {:induction false} OctetsAreBytes(s: string)
    ensures Octets(s) == |Encoded(s)|
  {
    hide Utf8, Utf8Length;
    if s != [] {
      OctetsAreBytes(s[..|s| - 1]);
      Utf8RoundTrips(s[|s| - 1]);
    }
  }

  lemma OctetsAppend(s: string, c: char)
    ensures Octets(s + [c]) == Octets(s) + Utf8Length(c)
  {
    assert (s + [c])[..|s|] == s;
  }

  const LIMIT: nat := 75

  /** The line the physical lines stand for: each continuation loses its leading space. */
  function Joined(chunks: seq<string>): string
  {
    if chunks == [] then []
    else if |chunks| == 1 then chunks[0]
    else
      var last := chunks[|chunks| - 1];
      Joined(chunks[..|chunks| - 1]) + (if last == [] then [] else last[1..])
  }

  /** Physical lines of one content line: every one fits, every later one starts with the
      space that marks it and holds something, and none had room for the next character. */
  ghost predicate IsFolding(chunks: seq<string>, line: string) {
    && chunks != [] && Joined(chunks) == line
    && (forall i :: 0 <= i < |chunks| ==> Octets(chunks[i]) <= LIMIT)
    && forall i :: 0 < i < |chunks| ==>
         |chunks[i]| > 1 && chunks[i][0] == ' ' && Octets(chunks[i - 1] + [chunks[i][1]]) > LIMIT
  }

  lemma JoinedMore(chunks: seq<string>, chunk: string)
    requires chunks != [] && chunk != []
    ensures Joined(chunks + [chunk]) == Joined(chunks) + chunk[1..]
  {
    assert (chunks + [chunk])[..|chunks|] == chunks;
  }

  /** Everything the loop of the fold keeps about the chunks so far and the open one. */
  ghost predicate FoldingSoFar(chunks: seq<string>, prefix: string, current: string, line: string) {
    && prefix == (if chunks == [] then "" else " ")
    && (current == "" ==> chunks == [])
    && IsFolding(chunks + [prefix + current], line)
  }

  lemma FoldStart()
    ensures FoldingSoFar([], "", "", "")
  {
    var empty := "";
    assert empty + empty == empty;
  }

  lemma FoldGrow(chunks: seq<string>, prefix: string, current: string, line: string, c: char)
    requires FoldingSoFar(chunks, prefix, current, line)
    requires Octets(prefix + (current + [c])) <= LIMIT
    ensures FoldingSoFar(chunks, prefix, current + [c], line + [c])
  {
    hide Octets, Joined;
    var was, now := chunks + [prefix + current], chunks + [prefix + (current + [c])];
    assert prefix + (current + [c]) == (prefix + current) + [c];
    if chunks == [] {
      assert Joined(was) == was[0] && Joined(now) == now[0] by { JoinedOne(was); JoinedOne(now); }
    } else {
      JoinedMore(chunks, prefix + current);
      JoinedMore(chunks, prefix + (current + [c]));
      assert (prefix + current)[1..] == current && (prefix + (current + [c]))[1..] == current + [c];
      assert Joined(now) == Joined(chunks) + current + [c];
    }
    forall i | 0 < i < |now|
      ensures |now[i]| > 1 && now[i][0] == ' ' && Octets(now[i - 1] + [now[i][1]]) > LIMIT
    {
      assert now[i - 1] == was[i - 1];
      assert |was[i]| > 1 && was[i][0] == now[i][0] && was[i][1] == now[i][1];
    }
    forall i | 0 <= i < |now| ensures Octets(now[i]) <= LIMIT { assert i < |chunks| ==> now[i] == was[i]; }
  }

  lemma JoinedOne(chunks: seq<string>)
    requires |chunks| == 1
    ensures Joined(chunks) == chunks[0]
  {
  }

  lemma FoldBreak(chunks: seq<string>, prefix: string, current: string, line: string, c: char)
    requires FoldingSoFar(chunks, prefix, current, line)
    requires Octets(prefix + (current + [c])) > LIMIT && current != ""
    ensures FoldingSoFar(chunks + [prefix + current], " ", [c], line + [c])
  {
    hide Joined;
    var was := chunks + [prefix + current];
    var now := was + [" " + [c]];
    JoinedMore(was, " " + [c]);
    assert (" " + [c])[1..] == [c];
    assert prefix + (current + [c]) == (prefix + current) + [c];
    OctetsAppend(" ", c);
    assert Octets(" ") <= 1 by { OctetsAppend([], ' '); assert [] + [' '] == " "; }
    hide Octets;
    forall i | 0 < i < |now|
      ensures |now[i]| > 1 && now[i][0] == ' ' && Octets(now[i - 1] + [now[i][1]]) > LIMIT
    {
      assert now[i - 1] == was[i - 1];
      assert i < |was| ==> now[i] == was[i];
    }
    forall i | 0 <= i < |now| ensures Octets(now[i]) <= LIMIT { assert i < |was| ==> now[i] == was[i]; }
  }

  /** Fold by UTF-8 octets, never inside a code point. */
  method Fold(line: string) returns (chunks: seq<string>)
    ensures IsFolding(chunks, line)
  {
    hide Octets, IsFolding, FoldingSoFar;
    chunks := [];
    var prefix, current := "", "";
    FoldStart();
    for i := 0 to |line|
      invariant FoldingSoFar(chunks, prefix, current, line[..i])
    {
      var c := line[i];
      var candidate := current + [c];
      assert line[..i + 1] == line[..i] + [c];
      if Octets(prefix + candidate) > LIMIT && current != "" {
        FoldBreak(chunks, prefix, current, line[..i], c);
        chunks := chunks + [prefix + current];
        prefix, current := " ", [c];
      } else {
        if current == "" { ShortStart(chunks, prefix, current, line[..i], c); }
        FoldGrow(chunks, prefix, current, line[..i], c);
        current := candidate;
      }
    }
    assert line[..|line|] == line;
    FoldingEnd(chunks, prefix, current, line);
    chunks := chunks + [prefix + current];
  }

  lemma ShortStart(chunks: seq<string>, prefix: string, current: string, line: string, c: char)
    requires FoldingSoFar(chunks, prefix, current, line) && current == ""
    ensures Octets(prefix + (current + [c])) <= LIMIT
  {
    OctetsAppend([], c);
    assert prefix + (current + [c]) == [] + [c];
  }

  lemma FoldingEnd(chunks: seq<string>, prefix: string, current: string, line: string)
    requires FoldingSoFar(chunks, prefix, current, line)
    ensures IsFolding(chunks + [prefix + current], line)
  {
  }

  // ---------------------------------------------------------------------
  // Reading physical text back
  // ---------------------------------------------------------------------

  /** `"\r\n".join`, with one more line break behind the last line. */
  function Text(lines: seq<string>): string {
    if lines == [] then [] else lines[0] + CRLF + Text(lines[1..])
  }

  /** `text.split("\r\n")`. */
  function Split(text: string): (pieces: seq<string>)
    ensures pieces != []
  {
    if text == [] then [[]]
    else if |text| > 1 && text[0] == '\r' && text[1] == '\n' then [[]] + Split(text[2..])
    else
      var rest := Split(text[1..]);
      [[text[0]] + rest[0]] + rest[1..]
  }

  lemma {:induction false} SplitLine(line: string, rest: string)
    requires OneLine(line)
    ensures Split(line + CRLF + rest) == [line] + Split(rest)
  {
    if line == [] {
      assert line + CRLF + rest == CRLF + rest && (CRLF + rest)[2..] == rest;
    } else {
      assert line[0] in line;
      var text := line + CRLF + rest;
      assert text[1..] == line[1..] + CRLF + rest;
      SplitLine(line[1..], rest);
      assert [line[0]] + line[1..] == line;
    }
  }

  lemma {:induction false} SplitText(lines: seq<string>)
    requires forall i :: 0 <= i < |lines| ==> OneLine(lines[i])
    ensures Split(Text(lines)) == lines + [""]
  {
    hide Split, OneLine;
    if lines == [] {
      SplitEmpty();
    } else {
      SplitLine(lines[0], Text(lines[1..]));
      SplitText(lines[1..]);
      assert lines == [lines[0]] + lines[1..];
    }
  }

  lemma SplitEmpty()
    ensures Split([]) == [""]
  {
  }

  predicate Continues(line: string) { line != [] && (line[0] == ' ' || line[0] == '\t') }

  /** Unfolding: a physical line that starts with white space continues the one before. */
  function Unfold(physical: seq<string>): seq<string> {
    if physical == [] then []
    else
      var last := physical[|physical| - 1];
      var before := Unfold(physical[..|physical| - 1]);
      if Continues(last) && before != [] then before[..|before| - 1] + [before[|before| - 1] + last[1..]]
      else before + [last]
  }

  lemma UnfoldMore(physical: seq<string>, line: string)
    ensures var before := Unfold(physical);
      Unfold(physical + [line])
      == if Continues(line) && before != [] then before[..|before| - 1] + [before[|before| - 1] + line[1..]]
         else before + [line]
  {
    assert (physical + [line])[..|physical|] == physical;
  }

  /** The physical lines of one content line unfold to it, whatever came before. */
  lemma {:induction false} UnfoldFolding(before: seq<string>, chunks: seq<string>)
    requires chunks != [] && !Continues(Joined(chunks))
    requires forall i :: 0 < i < |chunks| ==> |chunks[i]| > 1 && chunks[i][0] == ' '
    ensures Unfold(before + chunks) == Unfold(before) + [Joined(chunks)]
    decreases |chunks|
  {
    hide Unfold, Joined;
    var n := |chunks| - 1;
    if n == 0 {
      assert chunks == [chunks[0]];
      JoinedOne(chunks);
      UnfoldMore(before, chunks[0]);
    } else {
      var init := chunks[..n];
      assert chunks == init + [chunks[n]];
      JoinedMore(init, chunks[n]);
      HeadOfJoined(init);
      HeadOfJoined(chunks);
      UnfoldFolding(before, init);
      assert before + chunks == (before + init) + [chunks[n]];
      UnfoldMore(before + init, chunks[n]);
      var u := Unfold(before) + [Joined(init)];
      assert u[..|u| - 1] == Unfold(before);
    }
  }

  lemma {:induction false} HeadOfJoined(chunks: seq<string>)
    requires chunks != []
    requires forall i :: 0 < i < |chunks| ==> |chunks[i]| > 1 && chunks[i][0] == ' '
    ensures Joined(chunks) == [] || chunks[0] == [] || Joined(chunks)[0] == chunks[0][0]
    ensures chunks[0] != [] ==> Joined(chunks) != []
  {
    if |chunks| > 1 { HeadOfJoined(chunks[..|chunks| - 1]); }
  }

  /** A whole text of folded lines reads back as the content lines. */
  ghost predicate ReadsBack(physical: seq<string>, lines: seq<string>) {
    && Unfold(physical) == lines
    && forall i :: 0 <= i < |physical| ==> OneLine(physical[i]) && Octets(physical[i]) <= LIMIT
  }

  predicate ContentLine(line: string) { OneLine(line) && !Continues(line) }

  lemma {:induction false} ChunksOneLine(chunks: seq<string>)
    requires chunks != [] && OneLine(Joined(chunks))
    requires forall i :: 0 < i < |chunks| ==> |chunks[i]| > 1 && chunks[i][0] == ' '
    ensures forall i :: 0 <= i < |chunks| ==> OneLine(chunks[i])
  {
    hide Octets;
    var n := |chunks| - 1;
    if n > 0 {
      var joined, init := Joined(chunks), chunks[..n];
      assert joined == Joined(init) + chunks[n][1..];
      forall c | c in Joined(init) ensures c != '\r' && c != '\n' { assert c in joined; }
      ChunksOneLine(init);
      assert chunks[n] == [' '] + chunks[n][1..];
      forall c | c in chunks[n] ensures c != '\r' && c != '\n' { assert c == ' ' || c in joined; }
      forall i | 0 <= i < |chunks| ensures OneLine(chunks[i]) { if i < n { assert chunks[i] == init[i]; } }
    }
  }

  lemma ReadsBackMore(physical: seq<string>, lines: seq<string>, chunks: seq<string>, line: string)
    requires ReadsBack(physical, lines) && IsFolding(chunks, line) && ContentLine(line)
    ensures ReadsBack(physical + chunks, lines + [line])
  {
    hide Octets, Joined, Unfold, OneLine;
    ChunksOneLine(chunks);
    UnfoldFolding(physical, chunks);
    var all := physical + chunks;
    forall i | 0 <= i < |all| ensures OneLine(all[i]) && Octets(all[i]) <= LIMIT {
      if i >= |physical| { assert all[i] == chunks[i - |physical|]; }
    }
  }

  // ---------------------------------------------------------------------
  // The calendar
  // ---------------------------------------------------------------------

  /** The fields of a followed item the export reads. */
  datatype Item = Item(followId: string, matchId: string, precision: string, kickoff: Option<string>,
                       home: string, away: string, competition: string)

  /** The clock reader and the digest the export calls; both yield one line of plain text. */
  datatype Callees = Callees(utc: string -> Option<string>, digest: string -> string)
  {
    ghost predicate Valid() {
      && (forall s :: utc(s).Some? ==> OneLine(utc(s).value))
      && forall s :: OneLine(digest(s))
    }
  }

  function Or(value: string, default_: string): string { if value == "" then default_ else value }

  predicate IsExportable(item: Item, callees: Callees) {
    && item.precision == "exact" && item.kickoff.Some? && callees.utc(item.kickoff.value).Some?
    && Or(item.followId, item.matchId) != ""
  }

  function Description(item: Item): string {
    "Followed locally in Golavo. Competition: " + Or(item.competition, "Unknown") + "."
  }

  function EventLines(item: Item, stamp: string, callees: Callees): seq<string>
    requires IsExportable(item, callees)
  {
    [ "BEGIN:VEVENT",
      "UID:" + (callees.digest(Or(item.followId, item.matchId)) + "@golavo.local"),
      "DTSTAMP:" + stamp,
      "DTSTART:" + callees.utc(item.kickoff.value).value,
      "SUMMARY:" + (Escape(Or(item.home, "Home")) + (" vs " + Escape(Or(item.away, "Away")))),
      "DESCRIPTION:" + Escape(Description(item)),
      "END:VEVENT" ]
  }

  function Body(items: seq<Item>, stamp: string, callees: Callees): seq<string> {
    if items == [] then []
    else
      var last := items[|items| - 1];
      Body(items[..|items| - 1], stamp, callees)
      + (if IsExportable(last, callees) then EventLines(last, stamp, callees) else [])
  }

  function Head(): seq<string> {
    [
    "BEGIN:VCALENDAR", "VERSION:2.0", "PRODID:-//Golavo//Followed matches//EN", "CALSCALE:GREGORIAN",
    "METHOD:PUBLISH", "X-WR-CALNAME:Golavo followed matches" ]
  }

  function ContentLines(items: seq<Item>, stamp: string, callees: Callees): seq<string> {
    Head() + Body(items, stamp, callees) + ["END:VCALENDAR"]
  }

  ghost predicate AllContent(lines: seq<string>) { forall i :: 0 <= i < |lines| ==> ContentLine(lines[i]) }

  predicate Printable(text: string) { forall i :: 0 <= i < |text| ==> text[i] >= ' ' }

  lemma PrintableIsOneLine(text: string)
    requires Printable(text)
    ensures OneLine(text)
  {
  }

  /** A name that opens a content line keeps it one. */
  lemma NamedLine(name: string, value: string)
    requires ContentLine(name) && name != "" && OneLine(value)
    ensures ContentLine(name + value)
  {
    assert (name + value)[0] == name[0];
  }

  lemma OneLineConcat(a: string, b: string)
    requires OneLine(a) && OneLine(b)
    ensures OneLine(a + b)
  {
  }

  lemma EventNames()
    ensures ContentLine("UID:") && ContentLine("DTSTAMP:") && ContentLine("DTSTART:") && ContentLine("SUMMARY:")
    ensures OneLine(" vs ")
  {
    hide OneLine;
    PrintableIsOneLine("UID:");
    PrintableIsOneLine("DTSTAMP:");
    PrintableIsOneLine("DTSTART:");
    PrintableIsOneLine("SUMMARY:");
    PrintableIsOneLine(" vs ");
  }

  lemma EventFrame()
    ensures ContentLine("BEGIN:VEVENT") && ContentLine("DESCRIPTION:") && ContentLine("END:VEVENT")
    ensures OneLine("@golavo.local")
  {
    hide OneLine;
    PrintableIsOneLine("BEGIN:VEVENT");
    PrintableIsOneLine("DESCRIPTION:");
    PrintableIsOneLine("END:VEVENT");
    PrintableIsOneLine("@golavo.local");
  }

  lemma EscapeOneLine(value: string)
    ensures OneLine(Escape(value))
  {
    EscapeRoundTrips(value, []);
  }

  lemma EventContent(item: Item, stamp: string, callees: Callees)
    requires callees.Valid() && OneLine(stamp) && IsExportable(item, callees)
    ensures AllContent(EventLines(item, stamp, callees))
  {
    hide Escape, OneLine, ContentLine;
    EventNames();
    EventFrame();
    var digest := callees.digest(Or(item.followId, item.matchId));
    OneLineConcat(digest, "@golavo.local");
    NamedLine("UID:", digest + "@golavo.local");
    NamedLine("DTSTAMP:", stamp);
    NamedLine("DTSTART:", callees.utc(item.kickoff.value).value);
    EscapeOneLine(Or(item.home, "Home"));
    EscapeOneLine(Or(item.away, "Away"));
    OneLineConcat(" vs ", Escape(Or(item.away, "Away")));
    OneLineConcat(Escape(Or(item.home, "Home")), " vs " + Escape(Or(item.away, "Away")));
    NamedLine("SUMMARY:", Escape(Or(item.home, "Home")) + (" vs " + Escape(Or(item.away, "Away"))));
    EscapeOneLine(Description(item));
    NamedLine("DESCRIPTION:", Escape(Description(item)));
  }

  lemma ProductLine()
    ensures ContentLine("PRODID:-//Golavo//Followed matches//EN")
  {
    hide OneLine;
    PrintableIsOneLine("PRODID:-//Golavo//Followed matches//EN");
  }

  lemma CalendarNameLine()
    ensures ContentLine("X-WR-CALNAME:Golavo followed matches")
  {
    hide OneLine;
    PrintableIsOneLine("X-WR-CALNAME:Golavo followed matches");
  }

  lemma ShortFrameLines()
    ensures ContentLine("BEGIN:VCALENDAR") && ContentLine("VERSION:2.0") && ContentLine("END:VCALENDAR")
    ensures ContentLine("CALSCALE:GREGORIAN") && ContentLine("METHOD:PUBLISH")
  {
    hide OneLine;
    PrintableIsOneLine("BEGIN:VCALENDAR");
    PrintableIsOneLine("VERSION:2.0");
    PrintableIsOneLine("CALSCALE:GREGORIAN");
    PrintableIsOneLine("METHOD:PUBLISH");
    PrintableIsOneLine("END:VCALENDAR");
  }

  lemma FrameContent()
    ensures AllContent(Head()) && ContentLine("END:VCALENDAR")
  {
    hide ContentLine;
    ProductLine();
    CalendarNameLine();
    ShortFrameLines();
  }

  /** Whatever the items hold, the text splits at line breaks and unfolds to exactly the
      content lines, and no physical line is longer than 75 octets. */
  method BuildCalendar(items: seq<Item>, stamp: string, callees: Callees) returns (text: string)
    requires callees.Valid() && OneLine(stamp)
    ensures var pieces := Split(text);
      pieces[|pieces| - 1] == "" && ReadsBack(pieces[..|pieces| - 1], ContentLines(items, stamp, callees))
  {
    hide OneLine, ContentLine, ReadsBack, Callees.Valid, AllContent, Split, Text, Head, EventLines, IsExportable;
    var lines := Head();
    FrameContent();
    for i := 0 to |items|
      invariant lines == Head() + Body(items[..i], stamp, callees)
      invariant AllContent(lines)
    {
      assert items[..i + 1] == items[..i] + [items[i]];
      assert items[..i + 1][..i] == items[..i];
      if !IsExportable(items[i], callees) {
        continue;
      }
      EventContent(items[i], stamp, callees);
      AllContentConcat(lines, EventLines(items[i], stamp, callees));
      lines := lines + EventLines(items[i], stamp, callees);
    }
    assert items[..|items|] == items;
    AllContentConcat(lines, ["END:VCALENDAR"]);
    lines := lines + ["END:VCALENDAR"];
    text := JoinFolded(lines);
  }

  /** The join of all folded lines. */
  method JoinFolded(lines: seq<string>) returns (text: string)
    requires AllContent(lines)
    ensures var pieces := Split(text); pieces[|pieces| - 1] == "" && ReadsBack(pieces[..|pieces| - 1], lines)
  {
    hide Octets, OneLine, ContentLine, ReadsBack, AllContent;
    var physical: seq<string> := [];
    EmptyReadsBack();
    for i := 0 to |lines|
      invariant ReadsBack(physical, lines[..i])
    {
      var chunks := Fold(lines[i]);
      AllContentAt(lines, i);
      ReadsBackMore(physical, lines[..i], chunks, lines[i]);
      assert lines[..i + 1] == lines[..i] + [lines[i]];
      physical := physical + chunks;
    }
    assert lines[..|lines|] == lines;
    text := Text(physical);
    ReadsBackLines(physical, lines);
    SplitText(physical);
  }

  lemma AllContentConcat(a: seq<string>, b: seq<string>)
    requires AllContent(a)
    requires AllContent(b) || (|b| == 1 && ContentLine(b[0]))
    ensures AllContent(a + b)
  {
  }

  lemma AllContentAt(lines: seq<string>, i: nat)
    requires AllContent(lines) && i < |lines|
    ensures ContentLine(lines[i])
  {
  }

  lemma EmptyReadsBack()
    ensures ReadsBack([], [])
  {
  }

  lemma ReadsBackLines(physical: seq<string>, lines: seq<string>)
    requires ReadsBack(physical, lines)
    ensures forall i :: 0 <= i < |physical| ==> OneLine(physical[i])
  {
  }

  // ---------------------------------------------------------------------
  // What a calendar reader gets
  // ---------------------------------------------------------------------

  datatype Event = Event(uid: string, stamp: string, start: string, summary: string, description: string)

  /** A calendar reader: the events among the content lines, TEXT values unescaped. */
  function Events(lines: seq<string>): seq<Event> {
    if lines == [] then []
    else if |lines| >= 7 && lines[0] == "BEGIN:VEVENT" then
      [ Event(Value(lines[1]), Value(lines[2]), Value(lines[3]), Unescape(Value(lines[4])), Unescape(Value(lines[5]))) ]
      + Events(lines[7..])
    else Events(lines[1..])
  }

  /** What stands behind the first colon. */
  function Value(line: string): string {
    if line == [] then [] else if line[0] == ':' then line[1..] else Value(line[1..])
  }

  function EventOf(item: Item, stamp: string, callees: Callees): Event
    requires IsExportable(item, callees)
  {
    Event(callees.digest(Or(item.followId, item.matchId)) + "@golavo.local", stamp,
          callees.utc(item.kickoff.value).value,
          Normalised(Or(item.home, "Home")) + (" vs " + Normalised(Or(item.away, "Away"))),
          Normalised(Description(item)))
  }

  function Exported(items: seq<Item>, stamp: string, callees: Callees): seq<Event> {
    if items == [] then []
    else
      var last := items[|items| - 1];
      Exported(items[..|items| - 1], stamp, callees)
      + (if IsExportable(last, callees) then [EventOf(last, stamp, callees)] else [])
  }

  lemma {:induction false} ValueOf(name: string, value: string)
    requires ':' !in name
    ensures Value(name + ":" + value) == value
  {
    if name == [] {
      assert (name + ":" + value)[1..] == value;
    } else {
      assert name[0] in name;
      assert (name + ":" + value)[1..] == name[1..] + ":" + value;
      ValueOf(name[1..], value);
    }
  }

  lemma EscapedValue(value: string)
    ensures Unescape(Escape(value)) == Normalised(value)
  {
    hide Escape, Normalised;
    EscapeRoundTrips(value, []);
    assert Escape(value) + [] == Escape(value) && Normalised(value) + [] == Normalised(value);
  }

  lemma SummaryValue(home: string, away: string)
    ensures Unescape(Escape(home) + (" vs " + Escape(away))) == Normalised(home) + (" vs " + Normalised(away))
  {
    hide Escape, Normalised, Unescape;
    EscapeRoundTrips(home, " vs " + Escape(away));
    UnescapePlain(" vs ", Escape(away));
    EscapedValue(away);
  }

  lemma OneEvent(block: seq<string>)
    requires |block| == 7 && block[0] == "BEGIN:VEVENT"
    ensures Events(block)
      == [Event(Value(block[1]), Value(block[2]), Value(block[3]), Unescape(Value(block[4])),
        Unescape(Value(block[5])))]
  {
    hide Unescape, Value;
    assert block[7..] == [];
  }

  lemma EventValues(item: Item, stamp: string, callees: Callees)
    requires IsExportable(item, callees)
    ensures Events(EventLines(item, stamp, callees)) == [EventOf(item, stamp, callees)]
  {
    hide Escape, Normalised, Unescape, Value, Events;
    var home, away := Or(item.home, "Home"), Or(item.away, "Away");
    assert "UID" + ":" == "UID:";
    Named("UID", ":", callees.digest(Or(item.followId, item.matchId)) + "@golavo.local");
    assert "DTSTAMP" + ":" == "DTSTAMP:";
    Named("DTSTAMP", ":", stamp);
    assert "DTSTART" + ":" == "DTSTART:";
    Named("DTSTART", ":", callees.utc(item.kickoff.value).value);
    assert "SUMMARY" + ":" == "SUMMARY:";
    Named("SUMMARY", ":", Escape(home) + (" vs " + Escape(away)));
    assert "DESCRIPTION" + ":" == "DESCRIPTION:";
    Named("DESCRIPTION", ":", Escape(Description(item)));
    SummaryValue(home, away);
    EscapedValue(Description(item));
    OneEvent(EventLines(item, stamp, callees));
  }

  lemma Named(name: string, colon: string, value: string)
    requires ':' !in name && colon == ":"
    ensures Value((name + colon) + value) == value
  {
    ValueOf(name, value);
  }

  /** A block of events in front. */
  lemma EventsFront(block: seq<string>, rest: seq<string>)
    requires |block| == 7 && block[0] == "BEGIN:VEVENT"
    ensures Events(block + rest) == Events(block) + Events(rest)
  {
    hide Unescape, Value;
    assert (block + rest)[7..] == rest && block[7..] == [];
  }

  lemma {:induction false} BodyEvents(items: seq<Item>, stamp: string, callees: Callees, rest: seq<string>)
    ensures Events(Body(items, stamp, callees) + rest) == Exported(items, stamp, callees) + Events(rest)
  {
    hide EventLines, EventOf, Events, IsExportable;
    if items == [] {
      assert Body(items, stamp, callees) + rest == rest;
    } else {
      var init, last := items[..|items| - 1], items[|items| - 1];
      if IsExportable(last, callees) {
        var block := EventLines(last, stamp, callees);
        BodyEvents(init, stamp, callees, block + rest);
        assert Body(items, stamp, callees) + rest == Body(init, stamp, callees) + (block + rest);
        BlockShape(last, stamp, callees);
        EventsFront(block, rest);
        EventValues(last, stamp, callees);
      } else {
        BodyEvents(init, stamp, callees, rest);
        assert Body(items, stamp, callees) == Body(init, stamp, callees)
          && Exported(items, stamp, callees) == Exported(init, stamp, callees);
      }
    }
  }

  lemma BlockShape(item: Item, stamp: string, callees: Callees)
    requires IsExportable(item, callees)
    ensures var block := EventLines(item, stamp, callees); |block| == 7 && block[0] == "BEGIN:VEVENT"
  {
    hide Escape;
  }

  lemma {:induction false} SkipFrame(frame: seq<string>, rest: seq<string>)
    requires forall i :: 0 <= i < |frame| ==> frame[i] != "BEGIN:VEVENT"
    ensures Events(frame + rest) == Events(rest)
  {
    hide Unescape, Value;
    if frame == [] {
      assert frame + rest == rest;
    } else {
      assert (frame + rest)[1..] == frame[1..] + rest;
      SkipFrame(frame[1..], rest);
    }
  }

  lemma FrameHoldsNoEvent()
    ensures forall i :: 0 <= i < |Head()| ==> Head()[i] != "BEGIN:VEVENT"
    ensures Events(["END:VCALENDAR"]) == []
  {
    hide Unescape, Value;
    assert "BEGIN:VEVENT"[0] == 'B' && "BEGIN:VEVENT"[6] == 'V' && "BEGIN:VEVENT"[7] == 'E';
    assert "BEGIN:VCALENDAR"[7] == 'C' && "END:VCALENDAR"[0] == 'E';
    assert ["END:VCALENDAR"][1..] == [];
  }

  /** Read back, the calendar holds exactly one event for each exportable item, in order,
      with its names and text as followed, line breaks normalised. */
  lemma CalendarHoldsExportedItems(items: seq<Item>, stamp: string, callees: Callees)
    ensures Events(ContentLines(items, stamp, callees)) == Exported(items, stamp, callees)
  {
    hide Events, Body, Exported;
    var tail := Body(items, stamp, callees) + ["END:VCALENDAR"];
    FrameHoldsNoEvent();
    assert ContentLines(items, stamp, callees) == Head() + tail;
    SkipFrame(Head(), tail);
    BodyEvents(items, stamp, callees, ["END:VCALENDAR"]);
  }
}
