/** Parsing the flow log (`FlowLogProcessor.parse_flow_logs`): every line with enough whitespace-separated fields
    yields its (destination port, protocol) record. */
module FlowLog {
  import opened Wrappers
  import opened Text
  import opened Entities

  /** The fewest fields a line needs to yield a record. */
  const MIN_FIELDS: nat := 13
  /** Position of the destination port among a line's fields. */
  const DSTPORT_FIELD: nat := 6
  /** Position of the IANA protocol number among a line's fields. */
  const PROTOCOL_FIELD: nat := 7

  /** The protocol named by a protocol-number field: exactly "6" is TCP, exactly "17" is UDP, and every other
      value counts as ICMP. */
  function ProtocolName(number: string): (name: string)
    ensures name == "tcp" || name == "udp" || name == "icmp"
    ensures name == "tcp" <==> number == "6"
    ensures name == "udp" <==> number == "17"
  {
    if number == "6" then "tcp" else if number == "17" then "udp" else "icmp"
  }

  /** What one line contributes: nothing, one record, or the port literal that `int()` rejects. */
  datatype LineOutcome = Skipped | Parsed(record: PortProtocol) | BadPort(literal: string)

  /** The outcome for a line's fields: too few fields yield nothing; otherwise the record is built from the
      destination-port field and the protocol-number field. */
  function ParseFields(fields: seq<string>): LineOutcome
  {
    if |fields| < MIN_FIELDS then Skipped
    else match ParseDecimal(fields[DSTPORT_FIELD])
      case None => BadPort(fields[DSTPORT_FIELD])
      case Some(port) => Parsed(PortProtocol(port, ProtocolName(fields[PROTOCOL_FIELD])))
  }

  /** One line of the flow log: `line.strip().split()`, then its fields. */
  function ParseLine(line: string): LineOutcome
  {
    ParseFields(Fields(Strip(line)))
  }

  /** The records after one more line's outcome. */
  function Step(sofar: Result<seq<PortProtocol>, Error>, outcome: LineOutcome): Result<seq<PortProtocol>, Error>
  {
    match sofar
    case Err(e) => Err(e)
    case Ok(records) =>
      match outcome
      case Skipped => Ok(records)
      case Parsed(record) => Ok(records + [record])
      case BadPort(literal) => Err(InvalidPort(literal))
  }

  /** The records of a run of line outcomes in order; the first rejected port ends the parse with its error. */
  function Collect(outcomes: seq<LineOutcome>): Result<seq<PortProtocol>, Error>
  {
    if outcomes == [] then Ok([]) else Step(Collect(outcomes[..|outcomes| - 1]), outcomes[|outcomes| - 1])
  }

  /** The outcome of each line. */
  function Outcomes(lines: seq<string>): (outcomes: seq<LineOutcome>)
    ensures |outcomes| == |lines|
    ensures forall i :: 0 <= i < |lines| ==> outcomes[i] == ParseLine(lines[i])
  {
    if lines == [] then [] else Outcomes(lines[..|lines| - 1]) + [ParseLine(lines[|lines| - 1])]
  }

  /** The records of the lines in order. */
  function RecordsOf(lines: seq<string>): Result<seq<PortProtocol>, Error>
  {
    Collect(Outcomes(lines))
  }

  /** The outcome of `parse_flow_logs`: a missing flow log is an error. */
  function ParsedFlowLog(flowLog: Input<seq<string>>): Result<seq<PortProtocol>, Error>
  {
    match flowLog
    case NotFound => Err(FlowLogNotFound)
    case Found(lines) => RecordsOf(lines)
  }

  /** The records of two stretches of lines one after the other: the first error wins, otherwise the records of
      the first stretch come before those of the second. */
  function Concat(x: Result<seq<PortProtocol>, Error>, y: Result<seq<PortProtocol>, Error>): Result<seq<PortProtocol>, Error>
  {
    match x
    case Err(e) => Err(e)
    case Ok(a) =>
      match y
      case Err(e) => Err(e)
      case Ok(b) => Ok(a + b)
  }

  lemma {:induction false} CollectAppend(x: seq<LineOutcome>, y: seq<LineOutcome>)
    ensures Collect(x + y) == Concat(Collect(x), Collect(y))
  {
    if y == [] {
      assert x + y == x;
      if Collect(x).Ok? {
        assert Collect(x).value + [] == Collect(x).value;
      }
    } else {
      var y', o := y[..|y| - 1], y[|y| - 1];
      assert (x + y)[..|x + y| - 1] == x + y';
      assert (x + y)[|x + y| - 1] == o;
      CollectAppend(x, y');
      assert Collect(x + y) == Step(Concat(Collect(x), Collect(y')), o);
      assert Collect(y) == Step(Collect(y'), o);
      match Collect(x) {
        case Err(e) =>
        case Ok(a) =>
          match Collect(y') {
            case Err(e) =>
            case Ok(b) =>
              match o {
                case Skipped =>
                case Parsed(record) => assert a + b + [record] == a + (b + [record]);
                case BadPort(literal) =>
              }
          }
      }
    }
  }

  /** Parsing respects line order: the records of `a + b` are those of `a` followed by those of `b`. */
  lemma RecordsAppend(a: seq<string>, b: seq<string>)
    ensures RecordsOf(a + b) == Concat(RecordsOf(a), RecordsOf(b))
  {
    assert Outcomes(a + b) == Outcomes(a) + Outcomes(b);
    CollectAppend(Outcomes(a), Outcomes(b));
  }

  /** One more line: its outcome is applied to the records of the lines before it. */
  lemma NextLine(lines: seq<string>, i: nat)
    requires i < |lines|
    ensures RecordsOf(lines[..i + 1]) == Step(RecordsOf(lines[..i]), ParseLine(lines[i]))
  {
    assert lines[..i + 1][..i] == lines[..i];
  }

  /** Once a line has been rejected, the lines after it do not matter. */
  lemma RejectedLineEnds(lines: seq<string>, i: nat)
    requires i < |lines| && RecordsOf(lines[..i + 1]).Err?
    ensures RecordsOf(lines) == RecordsOf(lines[..i + 1])
  {
    RecordsAppend(lines[..i + 1], lines[i + 1..]);
    assert lines[..i + 1] + lines[i + 1..] == lines;
  }

  /** Reads the flow log line by line, keeping one record per line that has enough fields. */
  method ParseFlowLogs(flowLog: Input<seq<string>>) returns (r: Result<seq<PortProtocol>, Error>)
    ensures r == ParsedFlowLog(flowLog)
  {
    if flowLog.NotFound? {
      return Err(FlowLogNotFound);
    }
    var lines := flowLog.content;
    var flowLogs: seq<PortProtocol> := [];
    for i := 0 to |lines|
      invariant RecordsOf(lines[..i]) == Ok(flowLogs)
    {
      NextLine(lines, i);
      var fields := Fields(Strip(lines[i]));
      if |fields| >= MIN_FIELDS {
        var dstport := ParseDecimal(fields[DSTPORT_FIELD]);
        if dstport.None? {
          RejectedLineEnds(lines, i);
          return Err(InvalidPort(fields[DSTPORT_FIELD]));
        }
        var protocol := ProtocolName(fields[PROTOCOL_FIELD]);
        flowLogs := flowLogs + [PortProtocol(dstport.value, protocol)];
      }
    }
    assert lines[..|lines|] == lines;
    return Ok(flowLogs);
  }

  /** A line with at least the minimum number of fields. */
  predicate LongEnough(line: string)
  {
    |Fields(line)| >= MIN_FIELDS
  }

  /** The number of lines with at least the minimum number of fields. */
  function CountLongEnough(lines: seq<string>): nat
  {
    if lines == [] then 0
    else CountLongEnough(lines[..|lines| - 1]) + (if LongEnough(lines[|lines| - 1]) then 1 else 0)
  }

  /** A line yields nothing exactly when it has fewer than 13 fields, and a record it yields names one of the
      three protocols. */
  lemma LineOutcomeShape(line: string)
    ensures ParseLine(line).Skipped? <==> !LongEnough(line)
    ensures ParseLine(line).Parsed? ==> ParseLine(line).record.protocol in {"tcp", "udp", "icmp"}
  {
    FieldsOfStripped(line);
  }

  /** A successful parse yields exactly one record per line that has at least 13 fields (shorter lines yield
      none), and every record's protocol is one of "tcp", "udp" and "icmp". */
  lemma {:induction false} RecordsCount(lines: seq<string>)
    requires RecordsOf(lines).Ok?
    ensures |RecordsOf(lines).value| == CountLongEnough(lines)
    ensures forall r :: r in RecordsOf(lines).value ==> r.protocol in {"tcp", "udp", "icmp"}
  {
    if lines != [] {
      var p, line := lines[..|lines| - 1], lines[|lines| - 1];
      assert Outcomes(lines) == Outcomes(p) + [ParseLine(line)];
      assert Outcomes(lines)[..|lines| - 1] == Outcomes(p);
      RecordsCount(p);
      LineOutcomeShape(line);
    }
  }

  /** The parse fails exactly when some line with at least 13 fields has a destination port that `int()` rejects. */
  lemma {:induction false} RecordsErrors(lines: seq<string>)
    ensures RecordsOf(lines).Err? <==> exists i :: 0 <= i < |lines| && ParseLine(lines[i]).BadPort?
  {
    CollectErrors(Outcomes(lines));
    if exists i :: 0 <= i < |lines| && ParseLine(lines[i]).BadPort? {
      var i :| 0 <= i < |lines| && ParseLine(lines[i]).BadPort?;
      assert Outcomes(lines)[i].BadPort?;
    }
  }

  lemma {:induction false} CollectErrors(outcomes: seq<LineOutcome>)
    ensures Collect(outcomes).Err? <==> exists i :: 0 <= i < |outcomes| && outcomes[i].BadPort?
  {
    if outcomes != [] {
      var p := outcomes[..|outcomes| - 1];
      CollectErrors(p);
      if exists i :: 0 <= i < |outcomes| && outcomes[i].BadPort? {
        var i :| 0 <= i < |outcomes| && outcomes[i].BadPort?;
        if i < |p| {
          assert p[i].BadPort?;
        }
      }
      if exists i :: 0 <= i < |p| && p[i].BadPort? {
        var i :| 0 <= i < |p| && p[i].BadPort?;
        assert outcomes[i].BadPort?;
      }
    }
  }

  /** A line made of the fields `fs`, with any whitespace before them, any non-empty whitespace between them
      and any whitespace after them: shorter than 13 fields it yields nothing; otherwise its record is built
      from fields 6 and 7 alone, whatever the other fields. */
  lemma LineOfFields(fs: seq<string>, gaps: seq<string>, before: string)
    requires |gaps| == |fs|
    requires forall i :: 0 <= i < |fs| ==> IsField(fs[i])
    requires forall i :: 0 <= i < |gaps| ==> IsBlank(gaps[i])
    requires forall i :: 0 <= i < |gaps| - 1 ==> gaps[i] != []
    requires IsBlank(before)
    ensures var outcome := ParseLine(before + Spaced(fs, gaps));
      && (|fs| < MIN_FIELDS ==> outcome == Skipped)
      && (|fs| >= MIN_FIELDS && IsDecimal(fs[6]) ==> outcome == Parsed(PortProtocol(DecimalValue(fs[6]), ProtocolName(fs[7]))))
      && (|fs| >= MIN_FIELDS && !IsDecimal(fs[6]) ==> outcome == BadPort(fs[6]))
  {
    FieldsOfStripped(before + Spaced(fs, gaps));
    FieldsOfBlank(before, Spaced(fs, gaps));
    FieldsOfSpaced(fs, gaps);
  }
}
