/** A whole run (`FlowLogProcessor.__init__` followed by `process`): load the lookup table, parse and tag the
    flow log, and produce the output text. */
module Processor {
  import opened Wrappers
  import opened Text
  import opened Layout
  import opened Entities
  import opened Counting
  import opened Lookup
  import opened FlowLog
  import opened Tagging
  import opened Output

  /** What a successful run leaves behind: the text of the output file, and what loading the lookup table
      reported. */
  datatype Outcome = Outcome(report: string, note: LoadNote)

  /** The outcome of a run: the first failure ends it, otherwise the report of the tagged flow log. */
  function Run(lookupFile: Input<seq<seq<string>>>, flowLog: Input<seq<string>>): Result<Outcome, Error>
  {
    match Load(lookupFile)
    case Err(e) => Err(e)
    case Ok(loaded) =>
      match Tagged(loaded.table, flowLog)
      case Err(e) => Err(e)
      case Ok(counts) => Ok(Outcome(Report(counts.tagCounts, counts.portProtocolCounts), loaded.note))
  }

  /** Loads the lookup table, as the constructor does, then tags the flow log and writes the report. */
  method Process(lookupFile: Input<seq<seq<string>>>, flowLog: Input<seq<string>>) returns (r: Result<Outcome, Error>)
    ensures r == Run(lookupFile, flowLog)
  {
    var loaded := LoadLookupTable(lookupFile);
    if loaded.Err? {
      return Err(loaded.error);
    }
    var counts := TagFlowLogs(loaded.value.table, flowLog);
    if counts.Err? {
      return Err(counts.error);
    }
    var out := WriteOutput(counts.value.tagCounts, counts.value.portProtocolCounts);
    return Ok(Outcome(out, loaded.value.note));
  }

  /** No tag the pass counts holds a line feed, as long as no tag of the lookup table does. */
  lemma TagsWithoutLineFeed(table: LookupTable, records: seq<PortProtocol>)
    requires forall k :: k in table ==> forall j :: 0 <= j < |table[k]| ==> '\n' !in table[k][j]
    ensures var keys := Aggregate(table, records).tagCounts.keys;
      forall i :: 0 <= i < |keys| ==> '\n' !in keys[i]
  {
    var stream := TagStream(table, records);
    var keys := Tally(stream).keys;
    TallyCounts(stream);
    TagStreamFrom(table, records);
    forall i | 0 <= i < |keys|
      ensures '\n' !in keys[i]
    {
      var t := keys[i];
      assert t in stream;
      if t != UNTAGGED {
        var k :| k in table && t in table[k];
        var j :| 0 <= j < |table[k]| && table[k][j] == t;
      }
    }
  }

  /** No protocol counted holds a line feed, when every record names one of the three protocols (as every
      record of a parsed flow log does). */
  lemma ProtocolsWithoutLineFeed(table: LookupTable, records: seq<PortProtocol>)
    requires forall r :: r in records ==> r.protocol in {"tcp", "udp", "icmp"}
    ensures var keys := Aggregate(table, records).portProtocolCounts.keys;
      forall i :: 0 <= i < |keys| ==> '\n' !in keys[i].protocol
  {
    var keys := Tally(records).keys;
    TallyCounts(records);
    forall i | 0 <= i < |keys|
      ensures '\n' !in keys[i].protocol
    {
      assert keys[i] in records;
      var name := keys[i].protocol;
      assert name == "tcp" || name == "udp" || name == "icmp";
    }
  }

  /** A run on a lookup file and a flow log that both load: the report holds two header lines, one line per
      distinct tag and one per distinct (port, protocol) pair, a blank line and two more header lines; and, as long
      as no tag of the lookup file holds a line feed, splitting it on line feeds gives back exactly those lines. */
  lemma RunReport(lookupFile: Input<seq<seq<string>>>, lines: seq<string>)
    requires Load(lookupFile).Ok? && RecordsOf(lines).Ok?
    ensures var table, records := Load(lookupFile).value.table, RecordsOf(lines).value;
      var c := Aggregate(table, records);
      && Run(lookupFile, Found(lines)) == Ok(Outcome(Report(c.tagCounts, c.portProtocolCounts), Load(lookupFile).value.note))
      && |ReportLines(c.tagCounts, c.portProtocolCounts)| == 5 + |c.tagCounts.keys| + |c.portProtocolCounts.keys|
      && ((forall k :: k in table ==> forall j :: 0 <= j < |table[k]| ==> '\n' !in table[k][j]) ==>
          SplitOn(Run(lookupFile, Found(lines)).value.report, '\n') == ReportLines(c.tagCounts, c.portProtocolCounts) + [""])
  {
    var table, records := Load(lookupFile).value.table, RecordsOf(lines).value;
    var c := Aggregate(table, records);
    if forall k :: k in table ==> forall j :: 0 <= j < |table[k]| ==> '\n' !in table[k][j] {
      TagsWithoutLineFeed(table, records);
      RecordsCount(lines);
      ProtocolsWithoutLineFeed(table, records);
      ReportReadBack(c.tagCounts, c.portProtocolCounts);
    }
  }

  /** The lookup file of a one-row example: `443,tcp,https` under the header. */
  const HTTPS_LOOKUP: seq<seq<string>> := [["dstport", "protocol", "tag"], ["443", "tcp", "https"]]
  const HTTPS_KEY: PortProtocol := PortProtocol(443, "tcp")

  lemma Decimal443()
    ensures IsDecimal("443") && DecimalValue("443") == 443
  {
    assert "443"[..2] == "44" && "44"[..1] == "4";
  }

  lemma HttpsLookup()
    ensures Load(Found(HTTPS_LOOKUP)) == Ok(Loaded(map[HTTPS_KEY := ["https"]], TableRead))
  {
    var row := HTTPS_LOOKUP[1];
    assert HTTPS_LOOKUP[1..] == [row];
    Decimal443();
    assert Lower("tcp") == "tcp" by {
      assert forall i :: 0 <= i < 3 ==> !IsUpper("tcp"[i]);
    }
    assert RowKey(row) == Ok(HTTPS_KEY);
    var data: seq<seq<string>> := [row];
    assert data[..0] == [];
    assert TableOf(data) == AddRow(map[], row);
    assert TagsIn(map[], HTTPS_KEY) + [row[2]] == ["https"];
  }

  lemma HttpsParse(fs: seq<string>, gaps: seq<string>, before: string)
    requires |gaps| == |fs|
    requires forall i :: 0 <= i < |fs| ==> IsField(fs[i])
    requires forall i :: 0 <= i < |gaps| ==> IsBlank(gaps[i])
    requires forall i :: 0 <= i < |gaps| - 1 ==> gaps[i] != []
    requires IsBlank(before)
    requires |fs| >= MIN_FIELDS && fs[DSTPORT_FIELD] == "443" && fs[PROTOCOL_FIELD] == "6"
    ensures ParseLine(before + Spaced(fs, gaps)) == Parsed(HTTPS_KEY)
  {
    LineOfFields(fs, gaps, before);
    Decimal443();
  }

  lemma OneParsedLine(line: string, key: PortProtocol)
    requires ParseLine(line) == Parsed(key)
    ensures RecordsOf([line]) == Ok([key])
  {
    var lines: seq<string>, outcomes: seq<LineOutcome> := [line], [Parsed(key)];
    assert lines[..0] == [];
    assert Outcomes(lines) == outcomes;
    assert outcomes[..0] == [];
    assert Collect(outcomes) == Ok([] + [key]);
    assert [] + [key] == [key];
    assert Collect([Parsed(key)]) == Step(Collect([]), Parsed(key));
  }

  lemma HttpsCounts()
    ensures Aggregate(map[HTTPS_KEY := ["https"]], [HTTPS_KEY])
            == Counts(Counter(["https"], map["https" := 1]), Counter([HTTPS_KEY], map[HTTPS_KEY := 1]))
  {
    var table := map[HTTPS_KEY := ["https"]];
    assert TagStream(table, [HTTPS_KEY]) == TagStream(table, []) + ["https"];
    assert Tally(["https"]) == Tally([]).Inc("https");
    assert Tally([HTTPS_KEY]) == Tally([]).Inc(HTTPS_KEY);
  }

  lemma HttpsReport()
    ensures Report(Counter(["https"], map["https" := 1]), Counter([HTTPS_KEY], map[HTTPS_KEY := 1]))
            == TAG_HEADER + "https,1\n" + PORT_HEADER + "443,tcp,1\n"
  {
    var tags, ports := Counter(["https"], map["https" := 1]), Counter([HTTPS_KEY], map[HTTPS_KEY := 1]);
    assert NatToString(443) == "443" by {
      assert NatToString(44) == NatToString(4) + [DigitChar(4)];
    }
    assert NatToString(1) == "1";
    assert TagLine("https", 1) == "https,1";
    assert PortLine(HTTPS_KEY, 1) == "443,tcp,1";
    assert TagLines(tags, 1) == TagLines(tags, 0) + ["https,1"];
    assert PortLines(ports, 1) == PortLines(ports, 0) + ["443,tcp,1"];
    assert TagLines(tags, 1) == ["https,1"];
    assert PortLines(ports, 1) == ["443,tcp,1"];
    assert Unlines(["https,1"]) == "https,1" + "\n" + Unlines([]) == "https,1\n";
    assert Unlines(["443,tcp,1"]) == "443,tcp,1" + "\n" + Unlines([]) == "443,tcp,1\n";
  }

  /** One lookup row `443,tcp,https` and one flow-log line with at least 13 fields whose destination port is "443"
      and whose protocol number is "6": the report counts the tag `https` once and the pair `443,tcp` once, and
      nothing else. */
  lemma SingleMatchReport(fs: seq<string>, gaps: seq<string>, before: string)
    requires |gaps| == |fs|
    requires forall i :: 0 <= i < |fs| ==> IsField(fs[i])
    requires forall i :: 0 <= i < |gaps| ==> IsBlank(gaps[i])
    requires forall i :: 0 <= i < |gaps| - 1 ==> gaps[i] != []
    requires IsBlank(before)
    requires |fs| >= MIN_FIELDS && fs[DSTPORT_FIELD] == "443" && fs[PROTOCOL_FIELD] == "6"
    ensures Run(Found(HTTPS_LOOKUP), Found([before + Spaced(fs, gaps)]))
            == Ok(Outcome(TAG_HEADER + "https,1\n" + PORT_HEADER + "443,tcp,1\n", TableRead))
  {
    HttpsLookup();
    HttpsParse(fs, gaps, before);
    OneParsedLine(before + Spaced(fs, gaps), HTTPS_KEY);
    HttpsCounts();
    HttpsReport();
  }
}
