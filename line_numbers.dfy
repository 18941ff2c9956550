/**
 * Line numbering of file contents before they are shown to the brain
 * (`RefactoringAgent.appendLineNumbers`).
 *
 * The content is split into lines the way Java's `String.split("\\R")` does: `\R`
 * matches "\r\n" as one break, or any single one of the line feed, vertical tab, form
 * feed, carriage return, next-line (U+0085), line separator (U+2028) and paragraph
 * separator (U+2029); a text with no break at all is its own single line; otherwise the
 * pieces between breaks are kept, a leading empty piece included, and the trailing
 * empty pieces are dropped. Each line i (from 1) then becomes "i | line" followed by the
 * platform line separator.
 */
module LineNumbers {
  import opened Wrappers

  /** `System.lineSeparator()`, fixed to the value it has on Linux and macOS. */
  const LineSeparator: string := "\n"

  predicate IsLineBreak(c: char)
  {
    c == '\n' || c == '\U{B}' || c == '\U{C}' || c == '\r' || c == '\U{85}'
    || c == '\U{2028}' || c == '\U{2029}'
  }

  predicate BreakFree(s: string)
  {
    forall i :: 0 <= i < |s| ==> !IsLineBreak(s[i])
  }

  /** The pieces between the matches of `\R`, before trailing empty pieces are dropped. */
  function Pieces(s: string): (r: seq<string>)
    ensures |r| >= 1
    decreases |s|
  {
    if s == [] then [""]
    else if |s| >= 2 && s[0] == '\r' && s[1] == '\n' then [""] + Pieces(s[2..])
    else if IsLineBreak(s[0]) then [""] + Pieces(s[1..])
    else
      var rest := Pieces(s[1..]);
      [[s[0]] + rest[0]] + rest[1..]
  }

  function DropTrailingEmpty(lines: seq<string>): (r: seq<string>)
    ensures r <= lines
    ensures r == [] || r[|r| - 1] != ""
    ensures forall i :: |r| <= i < |lines| ==> lines[i] == ""
  {
    if lines == [] then []
    else if lines[|lines| - 1] == "" then DropTrailingEmpty(lines[..|lines| - 1])
    else lines
  }

  /** `s.split("\\R")`. */
  function SplitLines(s: string): (r: seq<string>)
    ensures s == "" ==> r == [""]
    ensures !BreakFree(s) ==> r <= Pieces(s) && (r == [] || r[|r| - 1] != "")
    ensures !BreakFree(s) ==> forall i :: |r| <= i < |Pieces(s)| ==> Pieces(s)[i] == ""
  {
    if BreakFree(s) then [s] else DropTrailingEmpty(Pieces(s))
  }

  /** Java's `StringBuilder.append(int)` for a non-negative value: its decimal digits. */
  function NatToString(n: nat): (r: string)
    ensures |r| >= 1
    decreases n
  {
    if n < 10 then [Digit(n)] else NatToString(n / 10) + [Digit(n % 10)]
  }

  function Digit(d: nat): char
    requires d < 10
  {
    "0123456789"[d]
  }

  /** Line `line` shown as line number `n`, without its separator. */
  function NumberedLine(n: nat, line: string): string
  {
    NatToString(n) + " | " + line
  }

  /** The lines of `lines`, numbered from `first`, each followed by the line separator. */
  function NumberedFrom(lines: seq<string>, first: nat): string
    decreases |lines|
  {
    if lines == [] then ""
    else NumberedLine(first, lines[0]) + LineSeparator + NumberedFrom(lines[1..], first + 1)
  }

  /** What `appendLineNumbers` returns; `None` stands for a null argument. */
  function NumberedText(fileContent: Option<string>): string
  {
    if fileContent.None? || fileContent.value == "" then ""
    else NumberedFrom(SplitLines(fileContent.value), 1)
  }

  /** `appendLineNumbers`: one loop over the split lines, appending to a builder. */
  method AppendLineNumbers(fileContent: Option<string>) returns (result: string)
    ensures result == NumberedText(fileContent)
  {
    if fileContent.None? || fileContent.value == "" {
      return "";
    }
    var lines := SplitLines(fileContent.value);
    assert NumberedText(fileContent) == NumberedFrom(lines, 1);
    result := "";
    for i := 0 to |lines|
      invariant result == NumberedFrom(lines[..i], 1)
    {
      NumberedFromSnoc(lines[..i], lines[i], 1);
      assert lines[..i + 1] == lines[..i] + [lines[i]];
      result := result + NumberedLine(i + 1, lines[i]) + LineSeparator;
    }
    assert lines[..|lines|] == lines;
  }

  lemma {:induction false} NumberedFromSnoc(lines: seq<string>, last: string, first: nat)
    ensures NumberedFrom(lines + [last], first)
         == NumberedFrom(lines, first) + NumberedLine(first + |lines|, last) + LineSeparator
    decreases |lines|
  {
    if lines == [] {
      assert NumberedFrom([last], first)
          == NumberedLine(first, last) + LineSeparator + NumberedFrom([], first + 1);
    } else {
      assert (lines + [last])[1..] == lines[1..] + [last];
      NumberedFromSnoc(lines[1..], last, first + 1);
    }
  }

  // ---------------------------------------------------------------------------
  // Properties of the split

  /** No line that the split yields contains a line break. */
  lemma {:induction false} PiecesAreBreakFree(s: string)
    ensures forall i :: 0 <= i < |Pieces(s)| ==> BreakFree(Pieces(s)[i])
    decreases |s|
  {
    if s == [] {
    } else if |s| >= 2 && s[0] == '\r' && s[1] == '\n' {
      PiecesAreBreakFree(s[2..]);
    } else if IsLineBreak(s[0]) {
      PiecesAreBreakFree(s[1..]);
    } else {
      PiecesAreBreakFree(s[1..]);
      var rest := Pieces(s[1..]);
      assert BreakFree(rest[0]);
      assert Pieces(s)[0] == [s[0]] + rest[0];
      assert forall i :: 1 <= i < |Pieces(s)| ==> Pieces(s)[i] == rest[i];
    }
  }

  /** One match of `\R`: "\r\n" taken whole, or a single line-break character. */
  predicate IsBreakMatch(b: string)
  {
    b == "\r\n" || (|b| == 1 && IsLineBreak(b[0]))
  }

  /** The matches of `\R` in `s`, left to right: the separators that `Pieces` cuts at. */
  function Breaks(s: string): seq<string>
    decreases |s|
  {
    if s == [] then []
    else if |s| >= 2 && s[0] == '\r' && s[1] == '\n' then ["\r\n"] + Breaks(s[2..])
    else if IsLineBreak(s[0]) then [[s[0]]] + Breaks(s[1..])
    else Breaks(s[1..])
  }

  /** The pieces with the separators put back between them. */
  function Interleave(pieces: seq<string>, breaks: seq<string>): string
    requires |pieces| == |breaks| + 1
    decreases |breaks|
  {
    if breaks == [] then pieces[0] else pieces[0] + breaks[0] + Interleave(pieces[1..], breaks[1..])
  }

  lemma InterleaveConsHead(x: string, pieces: seq<string>, breaks: seq<string>)
    requires |pieces| == |breaks| + 1
    ensures Interleave([x + pieces[0]] + pieces[1..], breaks) == x + Interleave(pieces, breaks)
  {
    if breaks != [] {
      assert ([x + pieces[0]] + pieces[1..])[1..] == pieces[1..];
    }
  }

  /**
   * The split loses nothing but the separators: there is one match of `\R` between each two
   * pieces, each match is one of `\R`'s alternatives, and putting the matches back between
   * the pieces gives the text again.
   */
  lemma {:induction false} PiecesAndBreaksRebuild(s: string)
    ensures |Pieces(s)| == |Breaks(s)| + 1
    ensures forall i :: 0 <= i < |Breaks(s)| ==> IsBreakMatch(Breaks(s)[i])
    ensures Interleave(Pieces(s), Breaks(s)) == s
    decreases |s|
  {
    if s == [] {
    } else if |s| >= 2 && s[0] == '\r' && s[1] == '\n' {
      PiecesAndBreaksRebuild(s[2..]);
      PrependBreak("\r\n", Pieces(s[2..]), Breaks(s[2..]), s[2..]);
      assert s == "\r\n" + s[2..];
    } else if IsLineBreak(s[0]) {
      PiecesAndBreaksRebuild(s[1..]);
      PrependBreak([s[0]], Pieces(s[1..]), Breaks(s[1..]), s[1..]);
      assert s == [s[0]] + s[1..];
    } else {
      PiecesAndBreaksRebuild(s[1..]);
      var rest := Pieces(s[1..]);
      InterleaveConsHead([s[0]], rest, Breaks(s[1..]));
      assert s == [s[0]] + s[1..];
    }
  }

  /** A match of `\R` in front of a text adds an empty piece and that match. */
  lemma PrependBreak(b: string, pieces: seq<string>, breaks: seq<string>, t: string)
    requires IsBreakMatch(b)
    requires |pieces| == |breaks| + 1
    requires forall i :: 0 <= i < |breaks| ==> IsBreakMatch(breaks[i])
    requires Interleave(pieces, breaks) == t
    ensures forall i :: 0 <= i < |[b] + breaks| ==> IsBreakMatch(([b] + breaks)[i])
    ensures Interleave([""] + pieces, [b] + breaks) == b + t
  {
    assert ([""] + pieces)[1..] == pieces;
    assert ([b] + breaks)[1..] == breaks;
  }

  /**
   * `\R` prefers "\r\n" to a lone "\r": a carriage return is matched alone only when no
   * line feed follows it.
   */
  lemma {:induction false} LoneReturnIsNotBeforeFeed(s: string)
    ensures |Pieces(s)| == |Breaks(s)| + 1
    ensures forall i :: 0 <= i < |Breaks(s)| - 1 && Breaks(s)[i] == "\r" && Pieces(s)[i + 1] == "" ==>
              Breaks(s)[i + 1] != "\n"
    decreases |s|
  {
    PiecesAndBreaksRebuild(s);
    if s == [] {
    } else if |s| >= 2 && s[0] == '\r' && s[1] == '\n' {
      LoneReturnIsNotBeforeFeed(s[2..]);
      assert Pieces(s)[1..] == Pieces(s[2..]);
      assert Breaks(s)[1..] == Breaks(s[2..]);
    } else if IsLineBreak(s[0]) {
      LoneReturnIsNotBeforeFeed(s[1..]);
      assert Pieces(s)[1..] == Pieces(s[1..]);
      assert Breaks(s)[1..] == Breaks(s[1..]);
      if s[0] == '\r' && |Breaks(s)| >= 2 && Pieces(s)[1] == "" {
        LeadingBreak(s[1..]);
      }
    } else {
      LoneReturnIsNotBeforeFeed(s[1..]);
      assert Pieces(s)[1..] == Pieces(s[1..])[1..];
    }
  }

  /** When a text has separators but its first piece is empty, it opens with its first separator. */
  lemma {:induction false} LeadingBreak(s: string)
    requires |Breaks(s)| >= 1 && Pieces(s)[0] == ""
    ensures |Breaks(s)[0]| <= |s| && s[..|Breaks(s)[0]|] == Breaks(s)[0]
    decreases |s|
  {
  }

  lemma SplitLinesAreBreakFree(s: string)
    ensures forall i :: 0 <= i < |SplitLines(s)| ==> BreakFree(SplitLines(s)[i])
  {
    PiecesAreBreakFree(s);
  }

  /** A text made only of line breaks has no lines at all. */
  lemma {:induction false} OnlyBreaksGivesNoLines(s: string)
    requires s != []
    requires forall i :: 0 <= i < |s| ==> IsLineBreak(s[i])
    ensures SplitLines(s) == []
    ensures NumberedText(Some(s)) == ""
  {
    AllEmptyPieces(s);
    var p := Pieces(s);
    assert !BreakFree(s);
    AllEmptyDrops(p);
  }

  lemma {:induction false} AllEmptyPieces(s: string)
    requires forall i :: 0 <= i < |s| ==> IsLineBreak(s[i])
    ensures forall i :: 0 <= i < |Pieces(s)| ==> Pieces(s)[i] == ""
    decreases |s|
  {
    if s == [] {
    } else if |s| >= 2 && s[0] == '\r' && s[1] == '\n' {
      AllEmptyPieces(s[2..]);
    } else {
      AllEmptyPieces(s[1..]);
    }
  }

  lemma {:induction false} AllEmptyDrops(lines: seq<string>)
    requires forall i :: 0 <= i < |lines| ==> lines[i] == ""
    ensures DropTrailingEmpty(lines) == []
    decreases |lines|
  {
    if lines != [] {
      AllEmptyDrops(lines[..|lines| - 1]);
    }
  }

  /** `lines` joined with `sep` between each two. */
  function Join(lines: seq<string>, sep: string): string
    requires |lines| >= 1
    decreases |lines|
  {
    if |lines| == 1 then lines[0] else lines[0] + sep + Join(lines[1..], sep)
  }

  /** The two separators files are written with: Unix "\n" and Windows "\r\n". */
  predicate IsFileSeparator(sep: string)
  {
    sep == "\n" || sep == "\r\n"
  }

  lemma {:induction false} PiecesOfBreakFreePrefix(x: string, t: string)
    requires BreakFree(x)
    ensures Pieces(x + t) == [x + Pieces(t)[0]] + Pieces(t)[1..]
    decreases |x|
  {
    if x != [] {
      assert (x + t)[1..] == x[1..] + t;
      assert (x + t)[0] == x[0];
      PiecesOfBreakFreePrefix(x[1..], t);
      assert [x[0]] + (x[1..] + Pieces(t)[0]) == x + Pieces(t)[0];
    } else {
      assert x + t == t;
      assert x + Pieces(t)[0] == Pieces(t)[0];
      assert [Pieces(t)[0]] + Pieces(t)[1..] == Pieces(t);
    }
  }

  lemma PiecesAfterSeparator(sep: string, t: string)
    requires IsFileSeparator(sep)
    ensures Pieces(sep + t) == [""] + Pieces(t)
  {
    if sep == "\n" {
      assert (sep + t)[1..] == t;
    } else {
      assert (sep + t)[2..] == t;
    }
  }

  lemma PiecesOfLineThenSeparator(x: string, sep: string, rest: string)
    requires BreakFree(x) && IsFileSeparator(sep)
    ensures Pieces(x + sep + rest) == [x] + Pieces(rest)
  {
    assert x + sep + rest == x + (sep + rest);
    PiecesOfBreakFreePrefix(x, sep + rest);
    PiecesAfterSeparator(sep, rest);
    assert x + "" == x;
  }

  lemma JoinCons(lines: seq<string>, sep: string, tail: string)
    requires |lines| >= 2
    ensures Join(lines, sep) + tail == lines[0] + sep + (Join(lines[1..], sep) + tail)
  {
  }

  /**
   * The pieces of `Join(lines, sep) + tail`, given the pieces `tailPieces` of `tail`: the
   * lines, with the first piece of the tail glued onto the last line.
   */
  function Glue(lines: seq<string>, tailPieces: seq<string>): seq<string>
    requires |lines| >= 1 && |tailPieces| >= 1
    decreases |lines|
  {
    if |lines| == 1 then [lines[0] + tailPieces[0]] + tailPieces[1..]
    else [lines[0]] + Glue(lines[1..], tailPieces)
  }

  lemma {:induction false} PiecesOfJoin(lines: seq<string>, sep: string, tail: string)
    requires |lines| >= 1 && IsFileSeparator(sep)
    requires forall i :: 0 <= i < |lines| ==> BreakFree(lines[i])
    ensures Pieces(Join(lines, sep) + tail) == Glue(lines, Pieces(tail))
    decreases |lines|
  {
    if |lines| == 1 {
      PiecesOfBreakFreePrefix(lines[0], tail);
    } else {
      assert forall i :: 0 <= i < |lines| - 1 ==> lines[1..][i] == lines[i + 1];
      PiecesOfJoin(lines[1..], sep, tail);
      JoinCons(lines, sep, tail);
      PiecesOfLineThenSeparator(lines[0], sep, Join(lines[1..], sep) + tail);
    }
  }

  /** When the tail's first piece is empty, gluing only appends the tail's other pieces. */
  lemma {:induction false} GlueEmptyHead(lines: seq<string>, more: seq<string>)
    requires |lines| >= 1
    ensures Glue(lines, [""] + more) == lines + more
    decreases |lines|
  {
    if |lines| == 1 {
      assert lines[0] + "" == lines[0];
      assert ([""] + more)[1..] == more;
    } else {
      GlueEmptyHead(lines[1..], more);
      assert [lines[0]] + (lines[1..] + more) == lines + more;
    }
  }

  /**
   * Splitting lines that were joined with "\n" or "\r\n" gives back those lines,
   * provided none holds a break and the last is not empty (or is the only one).
   */
  lemma SplitJoinRoundTrip(lines: seq<string>, sep: string)
    requires |lines| >= 1 && IsFileSeparator(sep)
    requires forall i :: 0 <= i < |lines| ==> BreakFree(lines[i])
    requires |lines| == 1 || lines[|lines| - 1] != ""
    ensures SplitLines(Join(lines, sep)) == lines
  {
    var text := Join(lines, sep);
    if |lines| > 1 {
      JoinHasBreak(lines, sep);
      PiecesOfJoin(lines, sep, "");
      assert text + "" == text;
      assert Pieces("") == [""] + [];
      GlueEmptyHead(lines, []);
      assert lines + [] == lines;
    }
  }

  lemma JoinHasBreak(lines: seq<string>, sep: string)
    requires |lines| >= 2 && IsFileSeparator(sep)
    ensures !BreakFree(Join(lines, sep))
  {
    var text := Join(lines, sep);
    assert text == lines[0] + sep + Join(lines[1..], sep);
    assert text[|lines[0]|] == sep[0];
  }

  // ---------------------------------------------------------------------------
  // Properties of the numbering

  lemma {:induction false} NatToStringIsDigits(n: nat)
    ensures forall i :: 0 <= i < |NatToString(n)| ==> '0' <= NatToString(n)[i] <= '9'
    decreases n
  {
    if n >= 10 {
      NatToStringIsDigits(n / 10);
    }
  }

  /** The value of a string of decimal digits. */
  function DecimalValue(s: string): nat
    requires forall i :: 0 <= i < |s| ==> '0' <= s[i] <= '9'
    decreases |s|
  {
    if s == [] then 0
    else 10 * DecimalValue(s[..|s| - 1]) + (s[|s| - 1] as int - '0' as int)
  }

  lemma DigitValue(d: nat)
    requires d < 10
    ensures '0' <= Digit(d) <= '9'
    ensures Digit(d) as int - '0' as int == d
  {
  }

  /** Reading the number back from a numbered line's prefix gives the line number. */
  lemma {:induction false} NatToStringRoundTrip(n: nat)
    ensures forall i :: 0 <= i < |NatToString(n)| ==> '0' <= NatToString(n)[i] <= '9'
    ensures DecimalValue(NatToString(n)) == n
    decreases n
  {
    NatToStringIsDigits(n);
    var s := NatToString(n);
    if n < 10 {
      DigitValue(n);
      assert s[..0] == [];
    } else {
      NatToStringRoundTrip(n / 10);
      DigitValue(n % 10);
      assert s[..|s| - 1] == NatToString(n / 10);
      assert s[|s| - 1] == Digit(n % 10);
      assert DecimalValue(s) == 10 * (n / 10) + n % 10;
    }
  }

  /** The lines of `lines`, numbered from `first`, without separators. */
  function NumberedLines(lines: seq<string>, first: nat): (r: seq<string>)
    ensures |r| == |lines|
    decreases |lines|
  {
    if lines == [] then [] else [NumberedLine(first, lines[0])] + NumberedLines(lines[1..], first + 1)
  }

  /** Line i of the numbered lines is line i of the input, numbered `first + i`. */
  lemma {:induction false} NumberedLinesAt(lines: seq<string>, first: nat)
    ensures forall i :: 0 <= i < |lines| ==> NumberedLines(lines, first)[i] == NumberedLine(first + i, lines[i])
    decreases |lines|
  {
    if lines != [] {
      NumberedLinesAt(lines[1..], first + 1);
      var r := NumberedLines(lines, first);
      forall i | 1 <= i < |lines| ensures r[i] == NumberedLine(first + i, lines[i]) {
        assert r[i] == NumberedLines(lines[1..], first + 1)[i - 1];
        assert lines[1..][i - 1] == lines[i];
      }
    }
  }

  /** The numbered text, as the numbered lines joined with the separator, plus a final one. */
  lemma {:induction false} NumberedFromIsJoin(lines: seq<string>, first: nat)
    requires |lines| >= 1
    ensures NumberedFrom(lines, first) == Join(NumberedLines(lines, first), LineSeparator) + LineSeparator
    decreases |lines|
  {
    var numbered := NumberedLines(lines, first);
    if |lines| > 1 {
      NumberedFromIsJoin(lines[1..], first + 1);
      assert numbered[1..] == NumberedLines(lines[1..], first + 1);
      assert numbered[0] == NumberedLine(first, lines[0]);
    } else {
      assert lines[1..] == [];
    }
  }

  lemma NumberedLineIsBreakFree(n: nat, line: string)
    requires BreakFree(line)
    ensures BreakFree(NumberedLine(n, line)) && NumberedLine(n, line) != ""
  {
    NatToStringIsDigits(n);
    var s := NumberedLine(n, line);
    forall i | 0 <= i < |s| ensures !IsLineBreak(s[i]) {
      if i < |NatToString(n)| {
        assert s[i] == NatToString(n)[i];
      } else if i >= |NatToString(n)| + 3 {
        assert s[i] == line[i - |NatToString(n)| - 3];
      }
    }
  }


  lemma PiecesOfTerminatedLines(lines: seq<string>, sep: string)
    requires |lines| >= 1 && IsFileSeparator(sep)
    requires forall i :: 0 <= i < |lines| ==> BreakFree(lines[i])
    ensures Pieces(Join(lines, sep) + sep) == lines + [""]
  {
    PiecesOfJoin(lines, sep, sep);
    assert Pieces(sep) == [""] + [""] by {
      PiecesAfterSeparator(sep, "");
      assert sep + "" == sep;
    }
    GlueEmptyHead(lines, [""]);
  }

  lemma DropOneTrailingEmpty(lines: seq<string>)
    requires |lines| >= 1 && lines[|lines| - 1] != ""
    ensures DropTrailingEmpty(lines + [""]) == lines
  {
    assert (lines + [""])[..|lines|] == lines;
  }

  /** Lines each followed by a separator split back into those lines. */
  lemma SplitTerminatedLines(lines: seq<string>, sep: string)
    requires |lines| >= 1 && IsFileSeparator(sep)
    requires forall i :: 0 <= i < |lines| ==> BreakFree(lines[i])
    requires lines[|lines| - 1] != ""
    ensures SplitLines(Join(lines, sep) + sep) == lines
  {
    var text := Join(lines, sep) + sep;
    assert !BreakFree(text) by {
      assert text[|text| - 1] == sep[|sep| - 1];
    }
    PiecesOfTerminatedLines(lines, sep);
    DropOneTrailingEmpty(lines);
  }

  /**
   * Numbering is 1-based and keeps every line verbatim: splitting the numbered text
   * again yields, for each line l_i of the input, exactly "i | l_i".
   */
  lemma NumberingKeepsLines(fileContent: string)
    requires fileContent != "" && SplitLines(fileContent) != []
    ensures var lines := SplitLines(fileContent);
            var out := SplitLines(NumberedText(Some(fileContent)));
            && |out| == |lines|
            && forall i :: 0 <= i < |lines| ==> out[i] == NumberedLine(i + 1, lines[i])
  {
    var lines := SplitLines(fileContent);
    var numbered := NumberedLines(lines, 1);
    SplitLinesAreBreakFree(fileContent);
    NumberedLinesAt(lines, 1);
    forall i | 0 <= i < |lines| ensures BreakFree(numbered[i]) && numbered[i] != "" {
      NumberedLineIsBreakFree(1 + i, lines[i]);
    }
    NumberedFromIsJoin(lines, 1);
    SplitTerminatedLines(numbered, LineSeparator);
  }
}
