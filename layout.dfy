/** Splitting text on a separator character and joining pieces with one: the shape of the report's lines
    (ended by a line feed) and of its comma-separated entries. */
module Layout {

  /** Length of the leading stretch of `s` that does not contain `sep`. */
  function SpanUntil(s: string, sep: char): (n: nat)
    ensures n <= |s|
    ensures forall i :: 0 <= i < n ==> s[i] != sep
    ensures n == |s| || s[n] == sep
  {
    if s == [] || s[0] == sep then 0 else 1 + SpanUntil(s[1..], sep)
  }

  /** `s.split(sep)` in Python: the pieces between occurrences of `sep`, at least one piece, none holding `sep`. */
  function SplitOn(s: string, sep: char): (pieces: seq<string>)
    ensures |pieces| >= 1
    ensures forall i :: 0 <= i < |pieces| ==> sep !in pieces[i]
    decreases |s|
  {
    var n := SpanUntil(s, sep);
    if n == |s| then [s] else [s[..n]] + SplitOn(s[n + 1..], sep)
  }

  /** `sep.join(pieces)` in Python. */
  function JoinOn(pieces: seq<string>, sep: char): string
  {
    if pieces == [] then ""
    else if |pieces| == 1 then pieces[0]
    else pieces[0] + [sep] + JoinOn(pieces[1..], sep)
  }

  /** Splitting on a separator undoes joining with it, as long as no piece holds the separator. */
  lemma {:induction false} SplitJoin(pieces: seq<string>, sep: char)
    requires pieces != []
    requires forall i :: 0 <= i < |pieces| ==> sep !in pieces[i]
    ensures SplitOn(JoinOn(pieces, sep), sep) == pieces
  {
    var s := JoinOn(pieces, sep);
    var head := pieces[0];
    if |pieces| == 1 {
      assert SpanUntil(s, sep) == |s|;
    } else {
      var rest := JoinOn(pieces[1..], sep);
      assert s == head + [sep] + rest;
      assert s[|head|] == sep;
      assert forall i :: 0 <= i < |head| ==> s[i] == head[i];
      var n := SpanUntil(s, sep);
      assert n == |head|;
      assert s[..n] == head;
      assert s[n + 1..] == rest;
      SplitJoin(pieces[1..], sep);
    }
  }

  /** The text of `lines`, each followed by a line feed: what writing `line + "\n"` for each line in turn leaves
      in a file. */
  function Unlines(lines: seq<string>): string
  {
    if lines == [] then "" else lines[0] + "\n" + Unlines(lines[1..])
  }

  /** Writing two groups of lines one after the other gives the text of all of them. */
  lemma {:induction false} UnlinesAppend(a: seq<string>, b: seq<string>)
    ensures Unlines(a + b) == Unlines(a) + Unlines(b)
  {
    if a == [] {
      assert a + b == b;
    } else {
      assert (a + b)[1..] == a[1..] + b;
      UnlinesAppend(a[1..], b);
    }
  }

  /** The text of lines is the lines joined by line feeds, followed by one more line feed. */
  lemma {:induction false} UnlinesAsJoin(lines: seq<string>)
    ensures Unlines(lines) == JoinOn(lines + [""], '\n')
  {
    if lines != [] {
      assert (lines + [""])[1..] == lines[1..] + [""];
      UnlinesAsJoin(lines[1..]);
    }
  }

  /** Lines none of which holds a line feed. */
  predicate SingleLines(lines: seq<string>)
  {
    forall i :: 0 <= i < |lines| ==> '\n' !in lines[i]
  }

  lemma SingleLinesAppend(a: seq<string>, b: seq<string>)
    requires SingleLines(a) && SingleLines(b)
    ensures SingleLines(a + b)
  {
    forall i | 0 <= i < |a + b|
      ensures '\n' !in (a + b)[i]
    {
      if i >= |a| {
        assert (a + b)[i] == b[i - |a|];
      }
    }
  }

  /** Reading back the text of lines free of line feeds: `text.split('\n')` gives the lines and one empty piece
      after the last line feed. */
  lemma ReadLines(lines: seq<string>)
    requires SingleLines(lines)
    ensures SplitOn(Unlines(lines), '\n') == lines + [""]
  {
    UnlinesAsJoin(lines);
    SplitJoin(lines + [""], '\n');
  }
}
