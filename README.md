# FlowLogProcessor in Dafny

A model of the flow-log tagger in `src/log_processor.py`, class `FlowLogProcessor`, written in Dafny. The class does four things:

- It loads a lookup table from a comma-separated file with header `dstport,protocol,tag`. The table maps each (destination port, lower-cased protocol) key to every tag listed for it, in row order.
- It parses a flow log. Each line with at least 13 whitespace-separated fields gives one record. The record is built from field 6, the destination port, and field 7, the IANA protocol number: "6" is tcp, "17" is udp, and anything else is icmp.
- It tags every record and counts, in two insertion-ordered maps:
  - every tag of the record's key, with "Untagged" when the table has no entry for the key;
  - every (port, protocol) pair.
- It writes a report with a tag section and a port/protocol section.

Each step of the class is a method with loops that build local state: a table, a list of records, two counting maps, the output text. Each method is proved equal to a specification function on values, and the properties the processor promises are proved about those functions.

Modules, one per file:

- `Wrappers` (`wrappers.dfy`): `Option` and `Result`.
- `Layout` (`layout.dfy`): splitting on a separator and joining with one, and line-feed-terminated lines. The report's read-back lemmas use these.
- `Text` (`text.dfy`): the Python built-ins the processor relies on, for ASCII text. All files are opened with `encoding='ascii'`, so these model `str.strip()`, `str.split()`, `str.lower()`, `int()` on a decimal literal and `f"{n}"` for a non-negative `n`, with the limits listed under "Left out".
- `Counting` (`counting.dfy`): an insertion-ordered `defaultdict(int)`, written `Counter`. It has an increment, a fold `Tally` over a stream of keys, exact counts, the sum of the counts, and first-occurrence order.
- `Entities` (`entities.dfy`): the key/record pair, the lookup table type, the files read (`Input`: absent or present) and the fatal errors.
- `Lookup` (`lookup.dfy`): `load_lookup_table`.
- `FlowLog` (`flowlog.dfy`): `parse_flow_logs`.
- `Tagging` (`tagging.dfy`): `tag_flow_logs`.
- `Output` (`output.dfy`): `write_output`, which builds the text of the output file.
- `Processor` (`processor.dfy`): the constructor's load followed by `process`.

The lookup table is a value parameter of `Tagging.TagFlowLogs`. The Python code only reads it with `.get`, which inserts nothing, so aggregation cannot change it, and the model needs no proof of that.

A run is a function (`Processor.Run`) of the two input files. Running twice on the same files therefore gives the same report.

## Model

| member | source | states |
|---|---|---|
| Text.Fields | src/log_processor.py:50 | `split()` yields only non-empty fields free of whitespace; how whitespace separates them is stated by the three lemmas below |
| Text.FieldsOfBlank | src/log_processor.py:50 | leading whitespace of any length adds no field |
| Text.FieldThenBlank | src/log_processor.py:50 | a field followed by any non-empty run of whitespace is one field: `split()` treats the whole run as a single separator |
| Text.LoneField | src/log_processor.py:50 | a text that is one field splits into that field alone |
| Text.FieldsOfStripped | src/log_processor.py:50 | `strip()` before `split()` changes no field |
| Text.FieldsOfSpaced | src/log_processor.py:50 | splitting fields laid out with any non-empty runs of whitespace between them, and any whitespace after the last, gives back exactly those fields |
| Text.Lower | src/log_processor.py:36 | `lower()` keeps the length, replaces each capital letter by its small letter (code + 32), keeps every other character, and leaves no capital |
| Text.ParseDecimal | src/log_processor.py:52 | `int()` succeeds exactly on a non-empty string of decimal digits |
| Text.NatToString | src/log_processor.py:84 | the printed count is a decimal numeral, with a leading zero only for zero |
| Text.DecimalRoundTrip | src/log_processor.py:88 | `int(f"{n}") == n` for every count and port printed |
| Text.CanonicalRoundTrip | src/log_processor.py:36 | a port literal without a superfluous leading zero prints back as itself |
| Layout.SplitOn | src/log_processor.py:84 | reference definition of splitting a text on a separator, used to state how the written report reads back; it yields at least one piece, and no piece holds the separator |
| Layout.SplitJoin | src/log_processor.py:84 | for the reference definitions used in the read-back property: splitting on a separator undoes joining with it when no piece holds the separator |
| Layout.UnlinesAppend | src/log_processor.py:81-88 | writing two groups of lines one after the other writes the text of all of them |
| Layout.UnlinesAsJoin | src/log_processor.py:81-88 | the written lines are the lines joined by line feeds, plus a final line feed |
| Layout.ReadLines | src/log_processor.py:81-88 | when no line holds a line feed, splitting the written lines on line feeds gives back the lines and one empty piece |
| Counting.Counter.Inc | src/log_processor.py:69 | `counts[k] += 1` raises `k`'s count by one and no other, appends a new key at the end of the key order, and keeps the counter valid |
| Counting.IndexOf | src/log_processor.py:66 | reference definition of an element's first position in a stream, used to state the first-occurrence order of the counters' keys; it is that element's position, and no earlier position holds it |
| Counting.TallySnoc | src/log_processor.py:69 | counting one more element is one more increment |
| Counting.TallyCounts | src/log_processor.py:63-70 | counting a stream gives a valid counter whose keys are exactly the stream's elements, each counted as often as it occurs |
| Counting.TallyOrder | src/log_processor.py:83 | a counter lists its keys in the order of their first occurrence in the stream |
| Counting.TallyTotal | src/log_processor.py:63-70 | the counts of a stream add up to its length |
| Counting.TallyAppend | src/log_processor.py:68-69 | counting more elements adds their number of occurrences to each count |
| Counting.TallyRepeat | src/log_processor.py:69 | counting one key `n` times gives a counter with that key alone and count `n` |
| Lookup.RowKey | src/log_processor.py:36 | the key of a 3-field row is `(int(dstport), protocol.lower())`; it is an error exactly when the port is not decimal, and the error names that literal |
| Lookup.TableOf | src/log_processor.py:33-36 | every key of a loaded table has at least one tag |
| Lookup.LoadLookupTable | src/log_processor.py:19-40 | the loop computes `Lookup.Load`: a missing file gives an empty table and a notice, an empty file gives an empty table and a header write, and otherwise the rows after the header fill the table, with the first rejected port aborting the load |
| Lookup.ErrorSticks | src/log_processor.py:36 | once `int()` has raised on a row, later rows do not matter |
| Lookup.RowEffect | src/log_processor.py:33-36 | a row without exactly 3 fields leaves the table unchanged; a 3-field row with a decimal port appends its tag to its key's list and changes no other key |
| Lookup.TableCollectsTags | src/log_processor.py:33-36 | each key's list is exactly the tags of the rows with that key, all of them, in row order; a key is present exactly when some row has it |
| Lookup.TableErrors | src/log_processor.py:34-36 | a load fails exactly when some 3-field data row has a non-decimal port |
| Lookup.LoadWithoutData | src/log_processor.py:26-38 | a missing file, an empty file and a header-only file all give an empty table, with a notice, a header write and nothing, respectively |
| Lookup.HeaderIgnored | src/log_processor.py:28 | the first row is never data: the load does not depend on it |
| FlowLog.ProtocolName | src/log_processor.py:53 | the name is tcp exactly for "6", udp exactly for "17", and icmp otherwise |
| FlowLog.Outcomes | src/log_processor.py:49-50 | one outcome per line, each the parse of that line |
| FlowLog.NextLine | src/log_processor.py:49-54 | the records after one more line are those before it with that line's outcome applied |
| FlowLog.RejectedLineEnds | src/log_processor.py:52 | once `int()` has raised on a line, the lines after it do not matter |
| FlowLog.ParseFlowLogs | src/log_processor.py:42-55 | the loop computes `FlowLog.ParsedFlowLog`: a missing flow log is an error; otherwise the records are those of the lines in order, and the first rejected port aborts the parse |
| FlowLog.CollectAppend | src/log_processor.py:49-54 | outcomes of consecutive stretches of lines combine in order, and the first error wins |
| FlowLog.RecordsAppend | src/log_processor.py:49-54 | the records of `a + b` are those of `a` followed by those of `b` |
| FlowLog.LineOutcomeShape | src/log_processor.py:51 | a line yields no record exactly when it has fewer than 13 fields, and a record names tcp, udp or icmp |
| FlowLog.RecordsCount | src/log_processor.py:49-54 | a successful parse yields exactly one record per line with at least 13 fields |
| FlowLog.RecordsErrors | src/log_processor.py:52 | the parse fails exactly when some line with at least 13 fields has a non-decimal field 6 |
| FlowLog.CollectErrors | src/log_processor.py:52 | a run of outcomes fails exactly when one of them is a rejected port |
| FlowLog.LineOfFields | src/log_processor.py:50-53 | a line of fields separated by any non-empty whitespace runs, with any whitespace before and after, yields nothing when it has fewer than 13 fields; otherwise its record is built from fields 6 and 7 alone, whatever the other fields |
| Tagging.TagStreamSnoc | src/log_processor.py:66-69 | one more record adds its tags, in order, to the increments made |
| Tagging.NextRecord | src/log_processor.py:66-70 | one more record appends its tags to the tag increments and adds one increment of its own pair |
| Tagging.TagFlowLogs | src/log_processor.py:57-72 | the nested loops compute `Tagging.Tagged`: the tag counts are the tally of every record's tags (or "Untagged"), and the pair counts are the tally of the records |
| Tagging.PortProtocolCountsExact | src/log_processor.py:70 | each pair's count is the number of records with it, the counts sum to the number of records, and the pairs are in first-appearance order |
| Tagging.TagCountsExact | src/log_processor.py:67-69 | each tag's count is its number of increments, the counts sum to the number of increments, and the tags are in first-increment order |
| Tagging.TagContribution | src/log_processor.py:67-69 | a record adds one per occurrence of a tag in its entry; a record without an entry adds exactly one to "Untagged" |
| Tagging.PortProtocolContribution | src/log_processor.py:70 | a record adds one to its own pair and nothing to any other pair |
| Tagging.TagStreamLength | src/log_processor.py:66-69 | with non-empty entries, there are at least as many tag increments as records, and exactly as many when every record has exactly one tag |
| Tagging.TagTotalBound | src/log_processor.py:66-69 | with non-empty entries (as every loaded table has), the tag counts sum to at least the number of records, with equality exactly when every record has one tag |
| Tagging.AllUntagged | src/log_processor.py:67 | with an empty table, the tag counts hold only "Untagged", counted once per record |
| Tagging.UntaggedStream | src/log_processor.py:67 | with an empty table, the pass makes exactly one "Untagged" increment per record |
| Tagging.TagStreamFrom | src/log_processor.py:67 | every counted tag is "Untagged" or a tag listed in the table |
| Tagging.TwoTagsOneRecord | src/log_processor.py:67-70 | one record whose key lists two different tags counts each tag once, in table order, and its pair once |
| Output.TagLines | src/log_processor.py:83-84 | one `tag,count` line per counted tag, in the counter's order |
| Output.PortLines | src/log_processor.py:87-88 | one `port,protocol,count` line per counted pair, in the counter's order |
| Output.HeaderLines | src/log_processor.py:82-86 | the two fixed headers are the lines "Tag Counts:", "Tag,Count" and "", "Port/Protocol Combination Counts:", "Port,Protocol,Count" |
| Output.WriteLine | src/log_processor.py:84 | writing a line and then a line feed extends the written lines by that line |
| Output.WriteOutput | src/log_processor.py:74-88 | the loops build exactly the report: the tag header, the tag lines, the port/protocol header, the port/protocol lines |
| Output.ReportLayout | src/log_processor.py:81-88 | the report is its lines, each ended by a line feed |
| Output.ReportLinesSingle | src/log_processor.py:81-88 | no report line holds a line feed when no tag or protocol does |
| Output.NumeralHoldsOnlyDigits | src/log_processor.py:84 | a printed count holds no character other than a digit, so no comma and no line feed |
| Output.ReportReadBack | src/log_processor.py:81-88 | when no tag or protocol holds a line feed, splitting the report on line feeds gives exactly its lines, then one empty piece |
| Output.TagLineReadBack | src/log_processor.py:84 | when the tag holds no comma, a tag line splits into the tag and a numeral that parses back to the count |
| Output.PortLineReadBack | src/log_processor.py:88 | when the protocol holds no comma, a pair line splits into three pieces that give back the port, the protocol and the count |
| Processor.Process | src/log_processor.py:90-96 | the run computes `Processor.Run`: load the table, tag the flow log, write the report, and stop at the first failure |
| Processor.TagsWithoutLineFeed | src/log_processor.py:67-69 | a counted tag holds no line feed when no tag of the table does |
| Processor.ProtocolsWithoutLineFeed | src/log_processor.py:70 | a counted protocol holds no line feed |
| Processor.RunReport | src/log_processor.py:90-95 | for two loadable files, the report is that of the aggregated counts, with 5 header lines plus one line per distinct tag and one per distinct pair, and, when no tag holds a line feed, it splits back into exactly those lines |
| Processor.SingleMatchReport | src/log_processor.py:90-95 | the lookup row `443,tcp,https` and one flow line with field 6 "443" and field 7 "6" give exactly the report with `https,1` and `443,tcp,1` |
| Processor.HttpsLookup | src/log_processor.py:33-36 | the lookup file holding `443,tcp,https` under its header loads as the table with that single entry |
| Processor.HttpsParse | src/log_processor.py:50-54 | a line with field 6 "443" and field 7 "6" yields the record (443, tcp) |
| Processor.OneParsedLine | src/log_processor.py:49-54 | a flow log of one parsed line yields exactly that line's record |
| Processor.HttpsCounts | src/log_processor.py:66-70 | tagging the one record (443, tcp) with the table {(443, tcp): [https]} counts `https` once and the pair once |
| Processor.HttpsReport | src/log_processor.py:81-88 | those counts print as the two headers with the lines `https,1` and `443,tcp,1` |
| Processor.Decimal443 | src/log_processor.py:52 | "443" is a decimal literal with value 443 |

## Left out

- File access is not modelled. A file the processor opens for reading is an `Input`: either absent (`FileNotFoundError`) or present with its content.
  - The lookup file's content is the list of rows `csv.reader` yields. csv quoting and escaping are not modelled.
  - The flow log's content is its list of lines.
  - The output file's content is the text `Output.WriteOutput` returns, with `\n` line ends. The file is opened in text mode with the default newline handling, so Python translates each `\n` it writes to `os.linesep`. Where that is `\r\n` (Windows) the bytes on disk differ from this text; the model does not capture that translation.
  - I/O errors other than a missing file (permissions, a read-only lookup file opened with `'r+'`, decoding errors on non-ASCII bytes) are not modelled.
- `Lookup.LoadLookupTable`: does not write the default header into an empty lookup file, and does not print the not-found message. It returns a `LoadNote` instead: `HeaderWritten` or `NotFoundReported`.
- `Processor.Process`: does not print the completion message.
- `Processor.Run` and `Processor.Process`: when the flow log is missing or has a rejected port, the result is only the error, and the lookup file's `LoadNote` is dropped. By then the Python constructor has already printed the not-found notice or written the default header into the empty lookup file. The model does not record that side effect on this error path.
- `Text.ParseDecimal`: models `int()` on plain decimal digits only. Python also accepts surrounding whitespace, a sign, and underscores between digits (`" 80"`, `"+80"`, `"-1"`, `"8_0"`). The model treats such a port literal as rejected: `Lookup.RowKey` gives an error where Python would accept it, for a lookup port, and so does `FlowLog.ParseFields` for a flow-log port. Negative ports therefore never occur in the model. It also has no digit limit: Python 3.11 and later (and the 3.7.14, 3.8.14, 3.9.14 and 3.10.7 security releases) raise `ValueError` from `int()` on a decimal string of more than 4300 digits by default (`sys.set_int_max_str_digits` changes the limit), where the model accepts the literal. The same limit applies to `f"{n}"` in `Text.NatToString`, for a value of more than 4300 digits.
- `Text.Fields`, `Text.Strip` and `Text.Lower` cover ASCII only. The files are decoded as ASCII, so for text the processor can read these are Python's `split()`, `strip()` and `lower()`. The model accepts any characters, though, and does not reject non-ASCII text as the decoder would.
- `Counting.Counter`: a `defaultdict(int)` also counts keys through `counts[k]`. The counter is a value (keys in insertion order plus a map), not a mutable object shared by reference. The processor never aliases its counters, so nothing observable is lost.
- `FlowLogProcessor.__init__`'s storing of the three paths is not modelled; the paths are replaced by the file contents themselves.
