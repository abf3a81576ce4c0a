/** The output file (`FlowLogProcessor.write_output`): a tag section and a port/protocol section, each a title
    line, a column header and one comma-separated line per counted key in the counter's iteration order. */
module Output {
  import opened Wrappers
  import opened Text
  import opened Layout
  import opened Entities
  import opened Counting

  const TAG_TITLE: string := "Tag Counts:"
  const TAG_COLUMNS: string := "Tag,Count"
  const PORT_TITLE: string := "Port/Protocol Combination Counts:"
  const PORT_COLUMNS: string := "Port,Protocol,Count"

  /** The title and column header of the tag section: `"Tag Counts:\nTag,Count\n"`. */
  const TAG_HEADER: string := TAG_TITLE + "\n" + TAG_COLUMNS + "\n"
  /** A blank line, then the title and column header of the port/protocol section:
      `"\nPort/Protocol Combination Counts:\nPort,Protocol,Count\n"`. */
  const PORT_HEADER: string := "\n" + PORT_TITLE + "\n" + PORT_COLUMNS + "\n"

  /** The lines of the two headers, without their line feeds. */
  const TAG_HEADER_LINES: seq<string> := [TAG_TITLE, TAG_COLUMNS]
  const PORT_HEADER_LINES: seq<string> := ["", PORT_TITLE, PORT_COLUMNS]

  lemma HeaderLines()
    ensures Unlines(TAG_HEADER_LINES) == TAG_HEADER
    ensures Unlines(PORT_HEADER_LINES) == PORT_HEADER
  {
    assert TAG_HEADER_LINES[1..] == [TAG_COLUMNS];
    assert Unlines([TAG_COLUMNS]) == TAG_COLUMNS + "\n";
    assert Unlines(TAG_HEADER_LINES) == TAG_TITLE + "\n" + (TAG_COLUMNS + "\n");
    assert PORT_HEADER_LINES[1..] == [PORT_TITLE, PORT_COLUMNS] && [PORT_TITLE, PORT_COLUMNS][1..] == [PORT_COLUMNS];
    assert Unlines([PORT_COLUMNS]) == PORT_COLUMNS + "\n";
  }

  /** The line of one tag: `f"{tag},{count}"`. */
  function TagLine(tag: Tag, count: nat): string
  {
    tag + "," + NatToString(count)
  }

  /** The line of one port/protocol pair: `f"{port},{protocol},{count}"`. */
  function PortLine(key: PortProtocol, count: nat): string
  {
    NatToString(key.port) + "," + key.protocol + "," + NatToString(count)
  }

  /** The lines of the first `n` tags of the counter, in its iteration order, each with its count. */
  function TagLines(c: Counter<Tag>, n: nat): (lines: seq<string>)
    requires n <= |c.keys|
    ensures |lines| == n
    ensures forall i :: 0 <= i < n ==> lines[i] == TagLine(c.keys[i], c.Get(c.keys[i]))
  {
    if n == 0 then [] else TagLines(c, n - 1) + [TagLine(c.keys[n - 1], c.Get(c.keys[n - 1]))]
  }

  /** The lines of the first `n` port/protocol pairs of the counter, in its iteration order, each with its count. */
  function PortLines(c: Counter<PortProtocol>, n: nat): (lines: seq<string>)
    requires n <= |c.keys|
    ensures |lines| == n
    ensures forall i :: 0 <= i < n ==> lines[i] == PortLine(c.keys[i], c.Get(c.keys[i]))
  {
    if n == 0 then [] else PortLines(c, n - 1) + [PortLine(c.keys[n - 1], c.Get(c.keys[n - 1]))]
  }

  /** The whole text written to the output file. */
  function Report(tagCounts: Counter<Tag>, portProtocolCounts: Counter<PortProtocol>): string
  {
    TAG_HEADER + Unlines(TagLines(tagCounts, |tagCounts.keys|))
    + PORT_HEADER + Unlines(PortLines(portProtocolCounts, |portProtocolCounts.keys|))
  }

  /** Writing one more line, followed by its line feed, after the text `written` of some earlier lines. */
  lemma WriteLine(written: string, before: string, lines: seq<string>, line: string)
    requires written == before + Unlines(lines)
    ensures written + line + "\n" == before + Unlines(lines + [line])
  {
    UnlinesAppend(lines, [line]);
    assert Unlines([line]) == line + "\n" + Unlines([]);
  }

  /** Builds the output text piece by piece, in the order `write_output` writes it. */
  method WriteOutput(tagCounts: Counter<Tag>, portProtocolCounts: Counter<PortProtocol>) returns (out: string)
    ensures out == Report(tagCounts, portProtocolCounts)
  {
    out := TAG_HEADER;
    ghost var head := out;
    for i := 0 to |tagCounts.keys|
      invariant out == head + Unlines(TagLines(tagCounts, i))
    {
      var tag := tagCounts.keys[i];
      WriteLine(out, head, TagLines(tagCounts, i), TagLine(tag, tagCounts.Get(tag)));
      out := out + TagLine(tag, tagCounts.Get(tag)) + "\n";
    }
    out := out + PORT_HEADER;
    ghost var tagSection := out;
    for i := 0 to |portProtocolCounts.keys|
      invariant out == tagSection + Unlines(PortLines(portProtocolCounts, i))
    {
      var key := portProtocolCounts.keys[i];
      var count := portProtocolCounts.Get(key);
      WriteLine(out, tagSection, PortLines(portProtocolCounts, i), PortLine(key, count));
      out := out + PortLine(key, count) + "\n";
    }
  }

  /** The report line by line: title, column header and the tag lines; a blank line; title, column header and the
      port/protocol lines. */
  function ReportLines(tagCounts: Counter<Tag>, portProtocolCounts: Counter<PortProtocol>): seq<string>
  {
    TAG_HEADER_LINES + TagLines(tagCounts, |tagCounts.keys|)
    + PORT_HEADER_LINES + PortLines(portProtocolCounts, |portProtocolCounts.keys|)
  }

  /** The report is its lines, each ended by a line feed. */
  lemma ReportLayout(tagCounts: Counter<Tag>, portProtocolCounts: Counter<PortProtocol>)
    ensures Report(tagCounts, portProtocolCounts) == Unlines(ReportLines(tagCounts, portProtocolCounts))
  {
    var tags, ports := TagLines(tagCounts, |tagCounts.keys|), PortLines(portProtocolCounts, |portProtocolCounts.keys|);
    UnlinesAppend(TAG_HEADER_LINES + tags + PORT_HEADER_LINES, ports);
    UnlinesAppend(TAG_HEADER_LINES + tags, PORT_HEADER_LINES);
    UnlinesAppend(TAG_HEADER_LINES, tags);
    HeaderLines();
  }

  /** A decimal numeral holds digits only, so no separator: no comma and no line feed. */
  lemma NumeralHoldsOnlyDigits(n: nat, c: char)
    requires !IsDigit(c)
    ensures c !in NatToString(n)
  {
    var s := NatToString(n);
    assert forall i :: 0 <= i < |s| ==> s[i] != c;
  }

  /** No tag line holds a line feed, as long as no tag does. */
  lemma TagLinesSingle(c: Counter<Tag>)
    requires forall i :: 0 <= i < |c.keys| ==> '\n' !in c.keys[i]
    ensures SingleLines(TagLines(c, |c.keys|))
  {
    forall i | 0 <= i < |c.keys|
      ensures '\n' !in TagLine(c.keys[i], c.Get(c.keys[i]))
    {
      NumeralHoldsOnlyDigits(c.Get(c.keys[i]), '\n');
    }
  }

  /** No port/protocol line holds a line feed, as long as no protocol does. */
  lemma PortLinesSingle(c: Counter<PortProtocol>)
    requires forall i :: 0 <= i < |c.keys| ==> '\n' !in c.keys[i].protocol
    ensures SingleLines(PortLines(c, |c.keys|))
  {
    forall i | 0 <= i < |c.keys|
      ensures '\n' !in PortLine(c.keys[i], c.Get(c.keys[i]))
    {
      NumeralHoldsOnlyDigits(c.keys[i].port, '\n');
      NumeralHoldsOnlyDigits(c.Get(c.keys[i]), '\n');
    }
  }

  lemma HeaderLinesSingle()
    ensures SingleLines(TAG_HEADER_LINES) && SingleLines(PORT_HEADER_LINES)
  {
    assert forall i :: 0 <= i < |TAG_TITLE| ==> TAG_TITLE[i] != '\n';
    assert forall i :: 0 <= i < |TAG_COLUMNS| ==> TAG_COLUMNS[i] != '\n';
    assert forall i :: 0 <= i < |PORT_TITLE| ==> PORT_TITLE[i] != '\n';
    assert forall i :: 0 <= i < |PORT_COLUMNS| ==> PORT_COLUMNS[i] != '\n';
  }

  /** No line of the report holds a line feed, as long as no tag and no protocol does. */
  lemma ReportLinesSingle(tagCounts: Counter<Tag>, portProtocolCounts: Counter<PortProtocol>)
    requires forall i :: 0 <= i < |tagCounts.keys| ==> '\n' !in tagCounts.keys[i]
    requires forall i :: 0 <= i < |portProtocolCounts.keys| ==> '\n' !in portProtocolCounts.keys[i].protocol
    ensures SingleLines(ReportLines(tagCounts, portProtocolCounts))
  {
    var tags, ports := TagLines(tagCounts, |tagCounts.keys|), PortLines(portProtocolCounts, |portProtocolCounts.keys|);
    TagLinesSingle(tagCounts);
    PortLinesSingle(portProtocolCounts);
    HeaderLinesSingle();
    SingleLinesAppend(TAG_HEADER_LINES, tags);
    SingleLinesAppend(TAG_HEADER_LINES + tags, PORT_HEADER_LINES);
    SingleLinesAppend(TAG_HEADER_LINES + tags + PORT_HEADER_LINES, ports);
  }

  /** Reading the report back: as long as no tag and no protocol holds a line feed, splitting the text on line
      feeds gives exactly the report's lines, then the empty piece after the final line feed. */
  lemma ReportReadBack(tagCounts: Counter<Tag>, portProtocolCounts: Counter<PortProtocol>)
    requires forall i :: 0 <= i < |tagCounts.keys| ==> '\n' !in tagCounts.keys[i]
    requires forall i :: 0 <= i < |portProtocolCounts.keys| ==> '\n' !in portProtocolCounts.keys[i].protocol
    ensures SplitOn(Report(tagCounts, portProtocolCounts), '\n') == ReportLines(tagCounts, portProtocolCounts) + [""]
  {
    ReportLinesSingle(tagCounts, portProtocolCounts);
    ReportLayout(tagCounts, portProtocolCounts);
    ReadLines(ReportLines(tagCounts, portProtocolCounts));
  }

  /** Reading a tag line back: as long as the tag holds no comma, splitting the line on commas gives the tag and
      a numeral that `int()` turns back into the count. */
  lemma TagLineReadBack(tag: Tag, count: nat)
    requires ',' !in tag
    ensures SplitOn(TagLine(tag, count), ',') == [tag, NatToString(count)]
    ensures ParseDecimal(NatToString(count)) == Some(count)
  {
    NumeralHoldsOnlyDigits(count, ',');
    assert JoinOn([tag, NatToString(count)], ',') == TagLine(tag, count);
    SplitJoin([tag, NatToString(count)], ',');
    DecimalRoundTrip(count);
  }

  /** Reading a port/protocol line back: as long as the protocol holds no comma, splitting the line on commas
      gives three numerals and names that `int()` turns back into the port, the protocol and the count. */
  lemma PortLineReadBack(key: PortProtocol, count: nat)
    requires ',' !in key.protocol
    ensures SplitOn(PortLine(key, count), ',') == [NatToString(key.port), key.protocol, NatToString(count)]
    ensures ParseDecimal(NatToString(key.port)) == Some(key.port)
    ensures ParseDecimal(NatToString(count)) == Some(count)
  {
    var pieces := [NatToString(key.port), key.protocol, NatToString(count)];
    NumeralHoldsOnlyDigits(key.port, ',');
    NumeralHoldsOnlyDigits(count, ',');
    assert JoinOn(pieces, ',') == PortLine(key, count) by {
      assert JoinOn(pieces[1..], ',') == key.protocol + "," + NatToString(count) by {
        assert pieces[1..][1..] == [NatToString(count)];
      }
    }
    SplitJoin(pieces, ',');
    DecimalRoundTrip(key.port);
    DecimalRoundTrip(count);
  }
}
