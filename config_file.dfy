/**
 * The text transforms WorldWipeConfig applies to its configuration file: the banner header every
 * file starts with, padRight, the search for the first YAML line (findYamlBodyOffset) and the
 * header insertion of ensureHeader. The file itself is a string parameter; reading and writing it
 * are left out.
 */
module ConfigFile {
  import opened JavaText

  // ---------------------------------------------------------------------------
  // padRight and the banner header
  // ---------------------------------------------------------------------------

  const BannerWidth: int := 76

  /** c repeated n times (String.repeat). */
  function Repeat(c: char, n: nat): (r: string)
    ensures |r| == n && forall i :: 0 <= i < n ==> r[i] == c
  {
    if n == 0 then [] else Repeat(c, n - 1) + [c]
  }

  /** padRight: null reads as "", and text shorter than width is filled with spaces up to it. */
  function PadRight(text: Option<string>, width: int): (r: string)
    ensures var value := if text.Some? then text.value else "";
            |r| == (if |value| >= width then |value| else width) &&
            r[..|value|] == value &&
            forall i :: |value| <= i < |r| ==> r[i] == ' '
  {
    var value := if text.Some? then text.value else "";
    if |value| >= width then value else value + Repeat(' ', width - |value|)
  }

  /** The top and bottom edge of the banner box. */
  function Border(): string
  {
    "# +" + Repeat('-', BannerWidth as nat) + "+\n"
  }

  /** One banner line inside the box. */
  function BannerRow(line: string): string
  {
    "# | " + PadRight(Some(line), BannerWidth - 1) + "|\n"
  }

  /** The rows of the box, in order. */
  function BannerRows(lines: seq<string>): string
  {
    if |lines| == 0 then "" else BannerRows(lines[..|lines| - 1]) + BannerRow(lines[|lines| - 1])
  }

  /** buildHeader: the box, then an empty line. */
  function BuildHeader(lines: seq<string>): string
  {
    Border() + BannerRows(lines) + Border() + "\n"
  }

  /** The text inside the box. */
  const BannerLines: seq<string> := [
    "",
    "   _____ _____  ________      __",
    "  / ____|  __ \\|  ____\\ \\    / /",
    " | (___ | |  | | |__   \\ \\  / /",
    "  \\___ \\| |  | |  __|   \\ \\/ /",
    "  ____) | |__| | |____   \\  /",
    " |_____/|_____/|______|   \\/",
    "",
    "  https://sdev.no/",
    "  Discord: https://discord.sdev.no/",
    // written in pieces so that the verifier can evaluate it
    "  Bug Reports: " + "https://github.com/" + "stigping/Hytale-" + "WorldWipe/issues",
    "  Author: StigPing",
    ""
  ]

  /** CONFIG_HEADER */
  function ConfigHeader(): string
  {
    BuildHeader(BannerLines)
  }

  predicate NoCarriageReturn(s: string)
  {
    '\r' !in s
  }

  /** A banner line that fits the box. */
  predicate FitsBox(line: string)
  {
    |line| <= BannerWidth - 1 && NoCarriageReturn(line)
  }

  lemma {:induction false} BannerRowsShape(lines: seq<string>)
    requires forall i :: 0 <= i < |lines| ==> FitsBox(lines[i])
    ensures |BannerRows(lines)| == |lines| * (BannerWidth + 5)
    ensures NoCarriageReturn(BannerRows(lines))
  {
    if |lines| > 0 {
      var front := lines[..|lines| - 1];
      BannerRowsShape(front);
      var row := BannerRow(lines[|lines| - 1]);
      assert NoCarriageReturn(row) by {
        var padded := PadRight(Some(lines[|lines| - 1]), BannerWidth - 1);
        assert row == "# | " + padded + "|\n";
        forall i | 0 <= i < |row| ensures row[i] != '\r' {
          if 4 <= i < 4 + |padded| {
            assert row[i] == padded[i - 4];
            if i - 4 < |lines[|lines| - 1]| {
              assert padded[i - 4] == lines[|lines| - 1][i - 4];
            }
          }
        }
      }
      NoCarriageReturnConcat(BannerRows(front), row);
    }
  }

  /** Every row of the box is as wide as its edges (BannerWidth + 4 characters and a line break),
      the header has no carriage return, and it ends with a line break. */
  lemma HeaderShape(lines: seq<string>)
    requires forall i :: 0 <= i < |lines| ==> FitsBox(lines[i])
    ensures |Border()| == BannerWidth + 5
    ensures forall i :: 0 <= i < |lines| ==> |BannerRow(lines[i])| == BannerWidth + 5
    ensures |BuildHeader(lines)| == (|lines| + 2) * (BannerWidth + 5) + 1
    ensures NoCarriageReturn(BuildHeader(lines))
    ensures BuildHeader(lines)[|BuildHeader(lines)| - 1] == '\n'
  {
    BannerRowsShape(lines);
    BorderShape();
    var b, rows := Border(), BannerRows(lines);
    NoCarriageReturnConcat(b, rows);
    NoCarriageReturnConcat(b + rows, b);
    NoCarriageReturnConcat(b + rows + b, "\n");
  }

  /** The edge of the box is as wide as its rows and has no carriage return. */
  lemma BorderShape()
    ensures |Border()| == BannerWidth + 5 && NoCarriageReturn(Border())
  {
    var b, dashes := Border(), Repeat('-', BannerWidth as nat);
    assert b == "# +" + dashes + "+\n";
    forall i | 0 <= i < |b| ensures b[i] != '\r' {
      if 3 <= i < 3 + |dashes| {
        assert b[i] == dashes[i - 3];
      }
    }
  }

  lemma NoCarriageReturnConcat(a: string, b: string)
    requires NoCarriageReturn(a) && NoCarriageReturn(b)
    ensures NoCarriageReturn(a + b)
  {
    forall i | 0 <= i < |a + b| ensures (a + b)[i] != '\r' {
      if i >= |a| {
        assert (a + b)[i] == b[i - |a|];
      }
    }
  }

  // The banner's lines are checked a few at a time: each literal is evaluated separately.

  lemma BannerLinesFitFrom0()
    ensures forall i :: 0 <= i < 4 ==> FitsBox(BannerLines[i])
  {
    forall i | 0 <= i < 4 ensures FitsBox(BannerLines[i]) {
      if i == 0 { assert FitsBox(BannerLines[0]); }
      else if i == 1 { assert FitsBox(BannerLines[1]); }
      else if i == 2 { assert FitsBox(BannerLines[2]); }
      else { assert FitsBox(BannerLines[3]); }
    }
  }

  lemma BannerLinesFitFrom4()
    ensures forall i :: 4 <= i < 8 ==> FitsBox(BannerLines[i])
  {
    forall i | 4 <= i < 8 ensures FitsBox(BannerLines[i]) {
      if i == 4 { assert FitsBox(BannerLines[4]); }
      else if i == 5 { assert FitsBox(BannerLines[5]); }
      else if i == 6 { assert FitsBox(BannerLines[6]); }
      else { assert FitsBox(BannerLines[7]); }
    }
  }

  lemma BannerLinesFitFrom8()
    ensures forall i :: 8 <= i < 13 ==> FitsBox(BannerLines[i])
  {
    forall i | 8 <= i < 13 ensures FitsBox(BannerLines[i]) {
      if i == 8 { assert FitsBox(BannerLines[8]); }
      else if i == 9 { assert FitsBox(BannerLines[9]); }
      else if i == 10 { assert FitsBox(BannerLines[10]); }
      else if i == 11 { assert FitsBox(BannerLines[11]); }
      else { assert FitsBox(BannerLines[12]); }
    }
  }

  lemma BannerLinesFit()
    ensures forall i :: 0 <= i < |BannerLines| ==> FitsBox(BannerLines[i])
  {
    BannerLinesFitFrom0();
    BannerLinesFitFrom4();
    BannerLinesFitFrom8();
  }

  /** CONFIG_HEADER has no carriage return and ends with a line break. */
  lemma ConfigHeaderShape()
    ensures NoCarriageReturn(ConfigHeader())
    ensures |ConfigHeader()| > 0 && ConfigHeader()[|ConfigHeader()| - 1] == '\n'
  {
    BannerLinesFit();
    HeaderShape(BannerLines);
  }

  // ---------------------------------------------------------------------------
  // String.replace("\r\n", "\n")
  // ---------------------------------------------------------------------------

  /** Replaces each CR LF pair by a single LF, left to right and without overlap, as
      String.replace does: a pair formed only by an earlier replacement stays. */
  function ReplaceCrlf(s: string): (r: string)
    ensures |r| <= |s|
  {
    if |s| < 2 then s
    else if s[0] == '\r' && s[1] == '\n' then "\n" + ReplaceCrlf(s[2..])
    else [s[0]] + ReplaceCrlf(s[1..])
  }

  /** Every carriage return in s starts a CR LF pair (Windows line endings). */
  predicate CrOnlyBeforeLf(s: string)
  {
    forall i :: 0 <= i < |s| && s[i] == '\r' ==> i + 1 < |s| && s[i + 1] == '\n'
  }

  /** Text without carriage returns passes unchanged, also in front of other text. */
  lemma {:induction false} ReplaceCrlfPrefix(h: string, b: string)
    requires NoCarriageReturn(h)
    ensures ReplaceCrlf(h + b) == h + ReplaceCrlf(b)
    decreases |h|
  {
    if |h| > 0 {
      assert h[0] in h;
      assert (h + b)[1..] == h[1..] + b;
      forall i | 0 <= i < |h| - 1 ensures h[1..][i] != '\r' {
        assert h[1..][i] == h[i + 1] && h[i + 1] in h;
      }
      ReplaceCrlfPrefix(h[1..], b);
      if |h + b| >= 2 {
        assert ReplaceCrlf(h + b) == [h[0]] + ReplaceCrlf(h[1..] + b);
        assert h == [h[0]] + h[1..];
      } else {
        assert b == [] && ReplaceCrlf(b) == b;
      }
    } else {
      assert h + b == b;
    }
  }

  /** A file with Windows line endings comes out with no carriage return at all. */
  lemma {:induction false} ReplaceCrlfWindows(s: string)
    requires CrOnlyBeforeLf(s)
    ensures NoCarriageReturn(ReplaceCrlf(s))
    decreases |s|
  {
    if |s| == 1 {
      assert s[0] != '\r';
      assert s == [s[0]];
    } else if |s| >= 2 {
      if s[0] == '\r' && s[1] == '\n' {
        assert CrOnlyBeforeLf(s[2..]) by {
          forall i | 0 <= i < |s[2..]| && s[2..][i] == '\r' ensures i + 1 < |s[2..]| && s[2..][i + 1] == '\n' {
            assert s[i + 2] == '\r';
          }
        }
        ReplaceCrlfWindows(s[2..]);
      } else {
        assert s[0] != '\r';
        assert CrOnlyBeforeLf(s[1..]) by {
          forall i | 0 <= i < |s[1..]| && s[1..][i] == '\r' ensures i + 1 < |s[1..]| && s[1..][i + 1] == '\n' {
            assert s[i + 1] == '\r';
          }
        }
        ReplaceCrlfWindows(s[1..]);
        NoCarriageReturnConcat([s[0]], ReplaceCrlf(s[1..]));
      }
    }
  }

  // ---------------------------------------------------------------------------
  // String.split("\n", -1) and findYamlBodyOffset
  // ---------------------------------------------------------------------------

  /** The index of the first line break in s at or after i, or |s| when there is none. */
  function LineEnd(s: string, i: nat): (k: nat)
    requires i <= |s|
    ensures i <= k <= |s| && (k < |s| ==> s[k] == '\n')
    decreases |s| - i
  {
    if i == |s| || s[i] == '\n' then i else LineEnd(s, i + 1)
  }

  /** The lines of s from position i on: the pieces between line breaks, empty ones (also at
      the end) kept. */
  function SplitFrom(s: string, i: nat): (lines: seq<string>)
    requires i <= |s|
    ensures |lines| >= 1
    decreases |s| - i
  {
    var k := LineEnd(s, i);
    if k == |s| then [s[i..]] else [s[i..k]] + SplitFrom(s, k + 1)
  }

  /** split("\n", -1) */
  function SplitLines(s: string): seq<string>
  {
    SplitFrom(s, 0)
  }

  /** The lines joined with a line break between each two (String.join("\n", lines)). */
  function JoinLines(lines: seq<string>): string
    requires |lines| >= 1
  {
    if |lines| == 1 then lines[0] else lines[0] + "\n" + JoinLines(lines[1..])
  }

  /** Joining the lines from i on gives back the text from i on. */
  lemma {:induction false} JoinSplitFrom(s: string, i: nat)
    requires i <= |s|
    ensures JoinLines(SplitFrom(s, i)) == s[i..]
    decreases |s| - i
  {
    var e := LineEnd(s, i);
    if e < |s| {
      var rest := SplitFrom(s, e + 1);
      assert SplitFrom(s, i) == [s[i..e]] + rest;
      assert ([s[i..e]] + rest)[1..] == rest;
      JoinSplitFrom(s, e + 1);
      assert JoinLines(SplitFrom(s, i)) == s[i..e] + "\n" + s[e + 1..];
      assert s[i..] == s[i..e] + "\n" + s[e + 1..];
    }
  }

  /** split("\n", -1) loses nothing: joining its pieces with line breaks gives the text back. */
  lemma JoinSplitLines(s: string)
    ensures JoinLines(SplitLines(s)) == s
  {
    JoinSplitFrom(s, 0);
  }

  /** Where line k starts: the lengths of the lines before it, each with its line break. */
  function LineStart(lines: seq<string>, k: nat): nat
    requires k <= |lines|
  {
    if k == 0 then 0 else LineStart(lines, k - 1) + |lines[k - 1]| + 1
  }

  lemma {:induction false} LineStartCons(a: string, rest: seq<string>, k: nat)
    requires 1 <= k <= |rest| + 1
    ensures LineStart([a] + rest, k) == |a| + 1 + LineStart(rest, k - 1)
  {
    if k > 1 {
      LineStartCons(a, rest, k - 1);
      assert ([a] + rest)[k - 1] == rest[k - 2];
    }
  }

  /** Line k of the lines from i on starts at i or just after a line break, and it is the text
      from there up to the next line break. */
  lemma {:induction false} LineAt(s: string, i: nat, k: nat)
    requires i <= |s| && k < |SplitFrom(s, i)|
    ensures var p := i + LineStart(SplitFrom(s, i), k);
            p <= |s| && (p == i || s[p - 1] == '\n') && SplitFrom(s, i)[k] == s[p..LineEnd(s, p)]
    decreases |s| - i
  {
    var e := LineEnd(s, i);
    if k == 0 {
      if e == |s| {
        assert SplitFrom(s, i) == [s[i..]] && s[i..] == s[i..e];
      } else {
        assert SplitFrom(s, i) == [s[i..e]] + SplitFrom(s, e + 1);
      }
    } else {
      assert e < |s|;
      var rest := SplitFrom(s, e + 1);
      assert SplitFrom(s, i) == [s[i..e]] + rest;
      LineAt(s, e + 1, k - 1);
      LineStartCons(s[i..e], rest, k);
      assert SplitFrom(s, i)[k] == rest[k - 1];
    }
  }

  /** A line findYamlBodyOffset stops at: not blank after trim, and not a comment. */
  predicate IsBodyLine(line: string)
  {
    var trimmed := Trim(line);
    trimmed != [] && !StartsWith(trimmed, "#")
  }

  /** The index of the first body line, if there is one. */
  function FirstBodyLine(lines: seq<string>): (r: Option<nat>)
    ensures r.Some? ==> r.value < |lines| && IsBodyLine(lines[r.value])
    ensures r.Some? ==> forall j :: 0 <= j < r.value ==> !IsBodyLine(lines[j])
    ensures r.None? ==> forall j :: 0 <= j < |lines| ==> !IsBodyLine(lines[j])
  {
    if |lines| == 0 then None
    else if IsBodyLine(lines[0]) then Some(0)
    else match FirstBodyLine(lines[1..])
      case None => None
      case Some(k) => Some(k + 1)
  }

  /** What findYamlBodyOffset answers: -1 for blank content or content without a body line,
      otherwise where the first body line starts. */
  function BodyOffset(content: string): (r: int)
    ensures -1 <= r <= |content|
  {
    if IsBlank(content) then -1
    else match FirstBodyLine(SplitLines(content))
      case None => -1
      case Some(k) => LineAt(content, 0, k); LineStart(SplitLines(content), k)
  }

  /** findYamlBodyOffset */
  method FindYamlBodyOffset(content: string) returns (offset: int)
    ensures offset == BodyOffset(content)
  {
    if IsBlank(content) {
      return -1;
    }
    var lines := SplitLines(content);
    offset := 0;
    var i := 0;
    while i < |lines|
      invariant 0 <= i <= |lines|
      invariant offset == LineStart(lines, i)
      invariant forall j :: 0 <= j < i ==> !IsBodyLine(lines[j])
    {
      var trimmed := Trim(lines[i]);
      if trimmed != [] && !StartsWith(trimmed, "#") {
        return;
      }
      offset := offset + |lines[i]| + 1;
      i := i + 1;
    }
    return -1;
  }

  /** A non-negative answer is the start of a line (the first character, or one after a line
      break), inside the content, and the line there is a body line; -1 means the content is
      blank or every line is blank or a comment. */
  lemma BodyOffsetShape(content: string)
    ensures var r := BodyOffset(content);
            r >= 0 ==> r < |content| && (r == 0 || content[r - 1] == '\n') &&
                       IsBodyLine(content[r..LineEnd(content, r)])
    ensures BodyOffset(content) == -1 <==>
            IsBlank(content) ||
            forall j :: 0 <= j < |SplitLines(content)| ==> !IsBodyLine(SplitLines(content)[j])
  {
    if !IsBlank(content) {
      var lines := SplitLines(content);
      match FirstBodyLine(lines)
      case None =>
      case Some(k) =>
        LineAt(content, 0, k);
        assert Trim(lines[k]) != [];
    }
  }

  // ---------------------------------------------------------------------------
  // ensureHeader
  // ---------------------------------------------------------------------------

  /** What ensureHeader keeps of the normalised text n: the text from the first body line on,
      without its leading whitespace. */
  function KeptBody(n: string): string
  {
    var offset := BodyOffset(n);
    StripLeading(if offset >= 0 then n[offset..] else "")
  }

  /** ensureHeader on the file's text, for a given header: None when the file is left as it is
      (its text, with CR LF read as LF, already starts with the header), otherwise the text
      written back: the header, then the text from the first body line on without its leading
      whitespace. */
  function EnsureHeaderWith(header: string, raw: string): (r: Option<string>)
  {
    var normalized := ReplaceCrlf(raw);
    if StartsWith(normalized, header) then None else Some(header + KeptBody(normalized))
  }

  /** ensureHeader, with CONFIG_HEADER. */
  function EnsureHeader(raw: string): Option<string>
  {
    EnsureHeaderWith(ConfigHeader(), raw)
  }

  /** The kept part is an end part of n that does not start with whitespace; between the first
      body line and it there is only whitespace, and without a body line nothing is kept. */
  lemma {:induction false} KeptBodyShape(n: string)
    ensures var rest, offset := KeptBody(n), BodyOffset(n);
            |rest| <= |n| && rest == n[|n| - |rest|..] &&
            (rest == [] || !IsWhitespace(rest[0])) &&
            (offset == -1 ==> rest == []) &&
            (offset >= 0 ==> offset <= |n| - |rest| && IsBlank(n[offset..|n| - |rest|]))
  {
    var offset := BodyOffset(n);
    if offset >= 0 {
      StripLeadingFrom(n, offset);
    }
    StripLeadingShape(if offset >= 0 then n[offset..] else "");
  }

  /** Stripping the text from offset on drops only whitespace and keeps an end part of it. */
  lemma StripLeadingFrom(n: string, offset: nat)
    requires offset <= |n|
    ensures var rest := StripLeading(n[offset..]);
            offset <= |n| - |rest| && rest == n[|n| - |rest|..] && IsBlank(n[offset..|n| - |rest|])
  {
    var body := n[offset..];
    var rest := StripLeading(body);
    StripLeadingShape(body);
    assert n[|n| - |rest|..] == body[|body| - |rest|..];
    assert n[offset..|n| - |rest|] == body[..|body| - |rest|];
  }

  /** The file is left alone exactly when it already starts with the header; a rewritten file is
      the header followed by the kept part of the normalised text. */
  lemma EnsureHeaderShape(h: string, raw: string)
    ensures EnsureHeaderWith(h, raw).None? <==> StartsWith(ReplaceCrlf(raw), h)
    ensures var r := EnsureHeaderWith(h, raw);
            r.Some? ==> StartsWith(r.value, h) && r.value[|h|..] == KeptBody(ReplaceCrlf(raw))
  {
    var n := ReplaceCrlf(raw);
    if !StartsWith(n, h) {
      var rest := KeptBody(n);
      assert EnsureHeaderWith(h, raw) == Some(h + rest);
      assert (h + rest)[|h|..] == rest;
    }
  }

  /** Running ensureHeader on the text it wrote leaves the file alone, for any header without a
      carriage return. */
  lemma EnsureHeaderWithIdempotent(h: string, raw: string)
    requires NoCarriageReturn(h)
    ensures EnsureHeaderWith(h, raw).Some? ==> EnsureHeaderWith(h, EnsureHeaderWith(h, raw).value).None?
  {
    if EnsureHeaderWith(h, raw).Some? {
      EnsureHeaderShape(h, raw);
      var written := EnsureHeaderWith(h, raw).value;
      var rest := written[|h|..];
      assert written == h + rest;
      ReplaceCrlfPrefix(h, rest);
      assert StartsWith(ReplaceCrlf(written), h);
    }
  }

  /** The same for CONFIG_HEADER: a second ensureHeader leaves the file alone. */
  lemma EnsureHeaderIdempotent(raw: string)
    ensures EnsureHeader(raw).Some? ==> EnsureHeader(EnsureHeader(raw).value).None?
  {
    ConfigHeaderShape();
    EnsureHeaderWithIdempotent(ConfigHeader(), raw);
  }

  /** buildHeader: the edge, one row per line appended in order, the edge again, an empty line. */
  method BuildHeaderText(lines: seq<string>) returns (header: string)
    ensures header == BuildHeader(lines)
  {
    var border := Border();
    header := border;
    var i := 0;
    while i < |lines|
      invariant 0 <= i <= |lines|
      invariant header == border + BannerRows(lines[..i])
    {
      assert lines[..i + 1][..i] == lines[..i];
      header := header + ("# | " + PadRight(Some(lines[i]), BannerWidth - 1) + "|\n");
      i := i + 1;
    }
    assert lines[..i] == lines;
    header := header + border + "\n";
  }
}
