/**
 * The row tokenizer of `pdfToArray` (src/lib/trafficParser.ts): every page string is cut into
 * lines, every line into white-space separated tokens, and blank lines are dropped. Pages are
 * concatenated in page order. `safe`, the guarded cell read used by the table parser, lives here
 * as well.
 */
module Tokenizer {
  import opened Text
  import Seqs

  /** What `extractText` hands over: one merged string or one string per page. */
  datatype ExtractedText = Merged(text: string) | PerPage(pages: seq<string>)

  /** `Array.isArray(text) ? text : [text]` */
  function Pages(t: ExtractedText): seq<string>
  {
    match t
    case Merged(s) => [s]
    case PerPage(ps) => ps
  }

  /** `s` without one trailing carriage return. */
  function DropCR(s: string): string
  {
    if |s| > 0 && s[|s| - 1] == '\r' then s[..|s| - 1] else s
  }

  /** `page.split(/\r?\n/)`: the pieces between line feeds; a carriage return directly before a
      line feed belongs to the separator. */
  function SplitLines(page: string): seq<string>
  {
    var pieces := SplitOn(page, '\n');
    seq(|pieces|, k requires 0 <= k < |pieces| => if k < |pieces| - 1 then DropCR(pieces[k]) else pieces[k])
  }

  /** `line.trim().replace(/\s+/g, " ").split(" ").filter(Boolean)` */
  function Words(line: string): seq<string>
  {
    Seqs.NonEmpty(SplitOn(Collapse(Trim(line)), ' '))
  }

  /** The rows of one page, in line order. */
  function PageRows(page: string): seq<seq<string>>
  {
    Seqs.NonEmpty(Seqs.Map(Words, SplitLines(page)))
  }

  /** `pages.flatMap(PageRows)` */
  function Rows(pages: seq<string>): seq<seq<string>>
  {
    Seqs.FlatMap(PageRows, pages)
  }

  /** The token rows `pdfToArray` returns for the output of `extractText`. */
  function PdfToArray(t: ExtractedText): seq<seq<string>>
  {
    Rows(Pages(t))
  }

  /** `safe(arr, i)`: the trimmed cell, or "" when the index is past the row. */
  function Safe(row: seq<string>, i: int): (r: string)
    ensures !(0 <= i < |row|) ==> r == ""
    ensures 0 <= i < |row| && NoSpace(row[i]) ==> r == row[i]
  {
    if 0 <= i < |row| then Trim(row[i]) else ""
  }

  // ---------------------------------------------------------------------------------------
  // Shape of the output

  /** A token row as the tokenizer produces it: non-empty, of non-empty white-space-free tokens. */
  predicate IsTokenRow(row: seq<string>)
  {
    row != [] && AreTokens(row)
  }

  /** After `replace(/\s+/g, " ")` the only white space left is the plain space. */
  lemma {:induction false} CollapseOnlySpaces(s: string)
    ensures forall i :: 0 <= i < |Collapse(s)| && IsSpace(Collapse(s)[i]) ==> Collapse(s)[i] == ' '
    decreases |s|
  {
    if s != [] {
      if IsSpace(s[0]) {
        CollapseOnlySpaces(TrimStart(s));
      } else {
        CollapseOnlySpaces(s[1..]);
      }
    }
  }

  /** Every character of a piece of `s.split(c)` is a character of `s`. */
  lemma {:induction false} SplitOnChars(s: string, c: char)
    ensures forall k, i :: 0 <= k < |SplitOn(s, c)| && 0 <= i < |SplitOn(s, c)[k]| ==>
      SplitOn(s, c)[k][i] in s
  {
    if s != [] {
      SplitOnChars(s[1..], c);
    }
  }

  /** Every token is non-empty and holds no white space. */
  predicate AreTokens(ws: seq<string>)
  {
    forall k :: 0 <= k < |ws| ==> ws[k] != [] && NoSpace(ws[k])
  }

  lemma WordsAreTokens(line: string)
    ensures AreTokens(Words(line))
  {
    var collapsed := Collapse(Trim(line));
    CollapseOnlySpaces(Trim(line));
    SplitOnChars(collapsed, ' ');
    var pieces := SplitOn(collapsed, ' ');
    forall k | 0 <= k < |Words(line)|
      ensures NoSpace(Words(line)[k])
    {
      var w := Words(line)[k];
      assert w in pieces;
      forall i | 0 <= i < |w|
        ensures !IsSpace(w[i])
      {
        assert w[i] in collapsed;
        assert w[i] != ' ';
      }
    }
  }

  lemma {:induction false} NonEmptyTokenRows(rows: seq<seq<string>>)
    requires forall k :: 0 <= k < |rows| ==> AreTokens(rows[k])
    ensures forall k :: 0 <= k < |Seqs.NonEmpty(rows)| ==> IsTokenRow(Seqs.NonEmpty(rows)[k])
  {
    if rows != [] {
      NonEmptyTokenRows(rows[1..]);
    }
  }

  lemma PageRowsAreTokenRows(page: string)
    ensures forall row :: row in PageRows(page) ==> IsTokenRow(row)
  {
    var lines := SplitLines(page);
    var rows := Seqs.Map(Words, lines);
    forall k | 0 <= k < |rows|
      ensures AreTokens(rows[k])
    {
      WordsAreTokens(lines[k]);
    }
    NonEmptyTokenRows(rows);
  }

  /** Every row `pdfToArray` produces is non-empty, and so is every token in it, and no token
      contains white space. */
  lemma RowsAreTokenRows(pages: seq<string>)
    ensures forall row :: row in Rows(pages) ==> IsTokenRow(row)
  {
    forall row | row in Rows(pages)
      ensures IsTokenRow(row)
    {
      Seqs.FlatMapMember(PageRows, pages, row);
      var k :| 0 <= k < |pages| && row in PageRows(pages[k]);
      PageRowsAreTokenRows(pages[k]);
    }
  }

  /** Rows keep page order: the rows of a concatenation of page lists are the concatenation of
      their rows. */
  lemma RowsAppend(a: seq<string>, b: seq<string>)
    ensures Rows(a + b) == Rows(a) + Rows(b)
  {
    Seqs.FlatMapAppend(PageRows, a, b);
  }

  /** `pdfToArray` returns token rows only, and for one merged string the rows of that string. */
  lemma PdfToArrayShape(t: ExtractedText)
    ensures forall row :: row in PdfToArray(t) ==> IsTokenRow(row)
    ensures t.Merged? ==> PdfToArray(t) == PageRows(t.text)
  {
    RowsAreTokenRows(Pages(t));
    if t.Merged? {
      assert Seqs.FlatMap(PageRows, [t.text]) == PageRows(t.text) + Seqs.FlatMap(PageRows, []);
    }
  }

  // ---------------------------------------------------------------------------------------
  // Tokenizing is the inverse of joining with single spaces

  lemma {:induction false} JoinEdges(ws: seq<string>)
    requires |ws| > 0
    requires forall k :: 0 <= k < |ws| ==> ws[k] != []
    ensures var j := JoinOn(ws, ' ');
      j != [] && j[0] == ws[0][0] && j[|j| - 1] == ws[|ws| - 1][|ws[|ws| - 1]| - 1]
  {
    if |ws| > 1 {
      JoinEdges(ws[1..]);
    }
  }

  lemma {:induction false} CollapseNoSpacePrefix(p: string, rest: string)
    requires NoSpace(p)
    ensures Collapse(p + rest) == p + Collapse(rest)
  {
    if p == [] {
      assert p + rest == rest;
    } else {
      var q := p + rest;
      assert q[0] == p[0] && q[1..] == p[1..] + rest;
      assert !IsSpace(q[0]);
      assert Collapse(q) == [p[0]] + Collapse(p[1..] + rest);
      CollapseNoSpacePrefix(p[1..], rest);
      assert p == [p[0]] + p[1..];
    }
  }

  lemma {:induction false} CollapseJoin(ws: seq<string>)
    requires forall k :: 0 <= k < |ws| ==> ws[k] != [] && NoSpace(ws[k])
    ensures Collapse(JoinOn(ws, ' ')) == JoinOn(ws, ' ')
  {
    if |ws| == 1 {
      CollapseNoSpacePrefix(ws[0], []);
      assert ws[0] + [] == ws[0];
    } else if |ws| > 1 {
      var rest := JoinOn(ws[1..], ' ');
      CollapseJoin(ws[1..]);
      JoinEdges(ws[1..]);
      CollapseSpaceThenWord(rest);
      CollapseNoSpacePrefix(ws[0], [' '] + rest);
      JoinCons(ws, ' ');
    }
  }

  lemma JoinCons(ws: seq<string>, c: char)
    requires |ws| > 1
    ensures JoinOn(ws, c) == ws[0] + ([c] + JoinOn(ws[1..], c))
  {
  }

  lemma CollapseSpaceThenWord(rest: string)
    requires rest != [] && !IsSpace(rest[0]) && Collapse(rest) == rest
    ensures Collapse([' '] + rest) == [' '] + rest
  {
    var tail := [' '] + rest;
    assert tail[0] == ' ' && tail[1..] == rest;
    assert IsSpace(tail[0]);
    TrimStartOneSpace(rest);
  }

  lemma TrimStartOneSpace(rest: string)
    requires rest != [] && !IsSpace(rest[0])
    ensures TrimStart([' '] + rest) == rest
  {
    var tail := [' '] + rest;
    assert tail[1..] == rest;
    assert TrimStart(rest) == rest;
  }

  /** Tokenizing a line made of tokens joined by single spaces gives those tokens back. */
  lemma WordsOfJoin(ws: seq<string>)
    requires forall k :: 0 <= k < |ws| ==> ws[k] != [] && NoSpace(ws[k])
    ensures Words(JoinOn(ws, ' ')) == ws
  {
    var j := JoinOn(ws, ' ');
    if ws == [] {
      assert Words(j) == Seqs.NonEmpty([[]]);
    } else {
      JoinEdges(ws);
      var first, last := ws[0], ws[|ws| - 1];
      assert !IsSpace(first[0]) && !IsSpace(last[|last| - 1]);
      TrimOfEdges(j);
      CollapseJoin(ws);
      assert forall k :: 0 <= k < |ws| ==> ' ' !in ws[k] by {
        assert IsSpace(' ');
      }
      SplitJoin(ws, ' ');
      Seqs.NonEmptyKeepsAll(ws);
      assert Words(j) == Seqs.NonEmpty(SplitOn(Collapse(Trim(j)), ' '));
    }
  }
}
