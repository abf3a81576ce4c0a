/** Loading the lookup table (`FlowLogProcessor.load_lookup_table`): the rows of a comma-separated file with
    header `dstport,protocol,tag`, turned into the tags listed for each (port, protocol) key. */
module Lookup {
  import opened Wrappers
  import opened Text
  import opened Entities

  /** What a load reports besides the table: the file was read, the file was empty and the default header was
      written into it, or the file was missing and a notice was printed. */
  datatype LoadNote = TableRead | HeaderWritten | NotFoundReported

  datatype Loaded = Loaded(table: LookupTable, note: LoadNote)

  /** The tags a table lists for `key`, none when the key is absent. */
  function TagsIn(table: LookupTable, key: PortProtocol): seq<Tag>
  {
    if key in table then table[key] else []
  }

  /** A data row with three fields whose port `int()` rejects. */
  predicate Rejected(row: seq<string>)
  {
    |row| == 3 && !IsDecimal(row[0])
  }

  /** The key of a three-field data row, `(int(dstport), protocol.lower())`, or the error `int()` raises. */
  function RowKey(row: seq<string>): (r: Result<PortProtocol, Error>)
    requires |row| == 3
    ensures r.Err? <==> Rejected(row)
    ensures r.Err? ==> r.error == InvalidPort(row[0])
    ensures r.Ok? ==> r.value.port == DecimalValue(row[0]) && r.value.protocol == Lower(row[1])
  {
    match ParseDecimal(row[0])
    case None => Err(InvalidPort(row[0]))
    case Some(port) => Ok(PortProtocol(port, Lower(row[1])))
  }

  /** One data row applied to the table: a row without exactly three fields is skipped, a three-field row appends
      its tag to the list of its key. */
  function AddRow(table: LookupTable, row: seq<string>): Result<LookupTable, Error>
  {
    if |row| != 3 then Ok(table)
    else match RowKey(row)
      case Err(e) => Err(e)
      case Ok(key) => Ok(table[key := TagsIn(table, key) + [row[2]]])
  }

  /** The table built from the data rows in order; the first rejected port ends the load with its error. Every
      listed key has at least one tag, because a key only enters the table with one. */
  function TableOf(rows: seq<seq<string>>): (r: Result<LookupTable, Error>)
    ensures r.Ok? ==> forall k :: k in r.value ==> r.value[k] != []
  {
    if rows == [] then Ok(map[])
    else match TableOf(rows[..|rows| - 1])
      case Err(e) => Err(e)
      case Ok(t) => AddRow(t, rows[|rows| - 1])
  }

  /** The outcome of `load_lookup_table`: the first row of a present file is its header and never data. */
  function Load(file: Input<seq<seq<string>>>): Result<Loaded, Error>
  {
    match file
    case NotFound => Ok(Loaded(map[], NotFoundReported))
    case Found(rows) =>
      if rows == [] then Ok(Loaded(map[], HeaderWritten))
      else match TableOf(rows[1..])
        case Err(e) => Err(e)
        case Ok(t) => Ok(Loaded(t, TableRead))
  }

  /** Once a row has been rejected, later rows do not matter. */
  lemma {:induction false} ErrorSticks(rows: seq<seq<string>>, n: nat)
    requires n <= |rows|
    requires TableOf(rows[..n]).Err?
    ensures TableOf(rows) == TableOf(rows[..n])
    decreases |rows|
  {
    if n < |rows| {
      var p := rows[..|rows| - 1];
      assert p[..n] == rows[..n];
      ErrorSticks(p, n);
    } else {
      assert rows[..n] == rows;
    }
  }

  /** Loads the lookup table from the rows of `file`, skipping the header row. */
  method LoadLookupTable(file: Input<seq<seq<string>>>) returns (r: Result<Loaded, Error>)
    ensures r == Load(file)
  {
    if file.NotFound? {
      return Ok(Loaded(map[], NotFoundReported));
    }
    var rows := file.content;
    if rows == [] {
      return Ok(Loaded(map[], HeaderWritten));
    }
    var data := rows[1..];
    var table: LookupTable := map[];
    for i := 0 to |data|
      invariant TableOf(data[..i]) == Ok(table)
    {
      var row := data[i];
      assert data[..i + 1][..i] == data[..i];
      if |row| == 3 {
        var port := ParseDecimal(row[0]);
        if port.None? {
          ErrorSticks(data, i + 1);
          return Err(InvalidPort(row[0]));
        }
        var key := PortProtocol(port.value, Lower(row[1]));
        var tags := if key in table then table[key] else [];
        table := table[key := tags + [row[2]]];
      }
    }
    assert data[..|data|] == data;
    return Ok(Loaded(table, TableRead));
  }

  /** The effect of one more data row: a three-field row with a decimal port appends its tag at the end of the
      list for `(int(port), protocol.lower())` and changes no other key; a row with any other number of fields
      leaves the table as it was. */
  lemma RowEffect(rows: seq<seq<string>>, row: seq<string>)
    requires TableOf(rows).Ok?
    ensures |row| != 3 ==> TableOf(rows + [row]) == TableOf(rows)
    ensures |row| == 3 && IsDecimal(row[0]) ==>
      var t, key := TableOf(rows).value, PortProtocol(DecimalValue(row[0]), Lower(row[1]));
      TableOf(rows + [row]) == Ok(t[key := TagsIn(t, key) + [row[2]]])
  {
    assert (rows + [row])[..|rows|] == rows;
  }

  /** The tag a single row contributes to `key`: its third field when it has exactly three fields and its key is
      `key`. */
  function RowTag(row: seq<string>, key: PortProtocol): seq<Tag>
  {
    if |row| == 3 && RowKey(row) == Ok(key) then [row[2]] else []
  }

  /** The tags of all rows filed under `key`, in row order: a reference definition of the table, key by key. */
  function RowTags(rows: seq<seq<string>>, key: PortProtocol): seq<Tag>
  {
    if rows == [] then [] else RowTag(rows[0], key) + RowTags(rows[1..], key)
  }

  lemma {:induction false} RowTagsSnoc(rows: seq<seq<string>>, row: seq<string>, key: PortProtocol)
    ensures RowTags(rows + [row], key) == RowTags(rows, key) + RowTag(row, key)
  {
    if rows == [] {
      assert RowTags([row], key) == RowTag(row, key) + RowTags([], key);
    } else {
      assert (rows + [row])[1..] == rows[1..] + [row];
      RowTagsSnoc(rows[1..], row, key);
    }
  }

  /** A loaded table lists, for every key, exactly the tags of the rows with that key, all of them and in row
      order; a key is in the table exactly when some row has it. */
  lemma {:induction false} TableCollectsTags(rows: seq<seq<string>>, key: PortProtocol)
    requires TableOf(rows).Ok?
    ensures TagsIn(TableOf(rows).value, key) == RowTags(rows, key)
    ensures key in TableOf(rows).value <==> RowTags(rows, key) != []
  {
    if rows != [] {
      var p, row := rows[..|rows| - 1], rows[|rows| - 1];
      assert rows == p + [row];
      TableCollectsTags(p, key);
      RowTagsSnoc(p, row, key);
    }
  }

  /** The load fails exactly when some three-field data row has a port that `int()` rejects. */
  lemma {:induction false} TableErrors(rows: seq<seq<string>>)
    ensures TableOf(rows).Err? <==> exists i :: 0 <= i < |rows| && Rejected(rows[i])
  {
    if rows != [] {
      var p, row := rows[..|rows| - 1], rows[|rows| - 1];
      TableErrors(p);
      if TableOf(rows).Err? && TableOf(p).Ok? {
        assert Rejected(rows[|rows| - 1]);
      }
      if exists i :: 0 <= i < |rows| && Rejected(rows[i]) {
        var i :| 0 <= i < |rows| && Rejected(rows[i]);
        if i < |p| {
          assert Rejected(p[i]);
        }
      }
      if exists i :: 0 <= i < |p| && Rejected(p[i]) {
        var i :| 0 <= i < |p| && Rejected(p[i]);
        assert Rejected(rows[i]);
      }
    }
  }

  /** A missing file and an empty file both give an empty table (the empty file also gets its header written),
      and a file that holds only its header gives an empty table and no repair. */
  lemma LoadWithoutData(header: seq<string>)
    ensures Load(NotFound) == Ok(Loaded(map[], NotFoundReported))
    ensures Load(Found([])) == Ok(Loaded(map[], HeaderWritten))
    ensures Load(Found([header])) == Ok(Loaded(map[], TableRead))
  {
    assert [header][1..] == [];
  }

  /** The header row is never data: whatever it holds, the load depends only on the rows after it. */
  lemma HeaderIgnored(header: seq<string>, other: seq<string>, data: seq<seq<string>>)
    ensures Load(Found([header] + data)) == Load(Found([other] + data))
  {
    assert ([header] + data)[1..] == data == ([other] + data)[1..];
  }
}
