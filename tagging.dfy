/** Tagging and aggregation (`FlowLogProcessor.tag_flow_logs`): one pass over the parsed records fills two
    insertion-ordered counting maps, tag -> count and (port, protocol) -> count. */
module Tagging {
  import opened Wrappers
  import opened Entities
  import opened Counting
  import opened FlowLog

  /** The two counting maps a pass produces. */
  datatype Counts = Counts(tagCounts: Counter<Tag>, portProtocolCounts: Counter<PortProtocol>)

  /** `lookup_table.get(key, ['Untagged'])`: the tags of a record, read without inserting anything. */
  function TagsOf(table: LookupTable, key: PortProtocol): seq<Tag>
  {
    if key in table then table[key] else [UNTAGGED]
  }

  /** Every tag increment the pass makes for `records`, in the order it makes them. */
  function TagStream(table: LookupTable, records: seq<PortProtocol>): seq<Tag>
  {
    if records == [] then []
    else TagStream(table, records[..|records| - 1]) + TagsOf(table, records[|records| - 1])
  }

  /** The counts of a pass, described as two separate tallies: one over the tag increments, one over the
      records themselves. */
  function Aggregate(table: LookupTable, records: seq<PortProtocol>): Counts
  {
    Counts(Tally(TagStream(table, records)), Tally(records))
  }

  /** The outcome of `tag_flow_logs`: the flow log's parse error, or the counts of its records. */
  function Tagged(table: LookupTable, flowLog: Input<seq<string>>): Result<Counts, Error>
  {
    match ParsedFlowLog(flowLog)
    case Err(e) => Err(e)
    case Ok(records) => Ok(Aggregate(table, records))
  }

  lemma TagStreamSnoc(table: LookupTable, records: seq<PortProtocol>, key: PortProtocol)
    ensures TagStream(table, records + [key]) == TagStream(table, records) + TagsOf(table, key)
  {
    assert (records + [key])[..|records|] == records;
  }

  /** One more tag of the current record is one more increment of the tag counts; stated on its own so that the
      tagging loop reasons about one sequence step at a time. */
  lemma TallyStep(done: seq<Tag>, tags: seq<Tag>, j: nat)
    requires j < |tags|
    ensures Tally(done + tags[..j + 1]) == Tally(done + tags[..j]).Inc(tags[j])
  {
    assert done + tags[..j + 1] == (done + tags[..j]) + [tags[j]];
    TallySnoc(done + tags[..j], tags[j]);
  }

  lemma NextRecord(table: LookupTable, records: seq<PortProtocol>, i: nat)
    requires i < |records|
    ensures TagStream(table, records[..i + 1]) == TagStream(table, records[..i]) + TagsOf(table, records[i])
    ensures Tally(records[..i + 1]) == Tally(records[..i]).Inc(records[i])
  {
    assert records[..i + 1] == records[..i] + [records[i]];
    TagStreamSnoc(table, records[..i], records[i]);
    TallySnoc(records[..i], records[i]);
  }

  /** Parses the flow log, then counts, in one pass over its records, every tag of each record and each record's
      (port, protocol) pair. */
  method TagFlowLogs(table: LookupTable, flowLog: Input<seq<string>>) returns (r: Result<Counts, Error>)
    ensures r == Tagged(table, flowLog)
  {
    var parsed := ParseFlowLogs(flowLog);
    if parsed.Err? {
      return Err(parsed.error);
    }
    var flowLogs := parsed.value;
    var tagCounts: Counter<Tag> := Counter([], map[]);
    var portProtocolCounts: Counter<PortProtocol> := Counter([], map[]);
    for i := 0 to |flowLogs|
      invariant tagCounts == Tally(TagStream(table, flowLogs[..i]))
      invariant portProtocolCounts == Tally(flowLogs[..i])
    {
      var key := flowLogs[i];
      var tags := if key in table then table[key] else [UNTAGGED];
      ghost var done := TagStream(table, flowLogs[..i]);
      assert done + tags[..0] == done;
      for j := 0 to |tags|
        invariant tagCounts == Tally(done + tags[..j])
      {
        TallyStep(done, tags, j);
        tagCounts := tagCounts.Inc(tags[j]);
      }
      assert tags[..|tags|] == tags;
      NextRecord(table, flowLogs, i);
      portProtocolCounts := portProtocolCounts.Inc(key);
    }
    assert flowLogs[..|flowLogs|] == flowLogs;
    return Ok(Counts(tagCounts, portProtocolCounts));
  }

  /** The port/protocol counts: each pair's count is the number of records that carry it, the counts add up to
      the number of records, and the pairs are listed once each in the order of their first record. */
  lemma PortProtocolCountsExact(table: LookupTable, records: seq<PortProtocol>)
    ensures var c := Aggregate(table, records).portProtocolCounts;
      && c.Valid()
      && (forall k :: k in c.keys <==> k in records)
      && (forall k :: c.Get(k) == multiset(records)[k])
      && c.Total() == |records|
      && InFirstOccurrenceOrder(c.keys, records)
  {
    TallyCounts(records);
    TallyTotal(records);
    TallyOrder(records);
  }

  /** The tag counts: each tag's count is the number of its increments, the counts add up to the number of
      increments, and the tags are listed once each in the order of their first increment. */
  lemma TagCountsExact(table: LookupTable, records: seq<PortProtocol>)
    ensures var c, stream := Aggregate(table, records).tagCounts, TagStream(table, records);
      && c.Valid()
      && (forall t :: t in c.keys <==> t in stream)
      && (forall t :: c.Get(t) == multiset(stream)[t])
      && c.Total() == |stream|
      && InFirstOccurrenceOrder(c.keys, stream)
  {
    var stream := TagStream(table, records);
    TallyCounts(stream);
    TallyTotal(stream);
    TallyOrder(stream);
  }

  /** What one more record adds to the tag counts: one to each tag of its lookup entry, counting a tag once per
      occurrence in the entry; when its key has no entry, one to "Untagged" and nothing else. */
  lemma TagContribution(table: LookupTable, records: seq<PortProtocol>, key: PortProtocol)
    ensures forall t :: Aggregate(table, records + [key]).tagCounts.Get(t)
                        == Aggregate(table, records).tagCounts.Get(t) + multiset(TagsOf(table, key))[t]
    ensures key !in table ==>
      forall t :: Aggregate(table, records + [key]).tagCounts.Get(t)
                  == Aggregate(table, records).tagCounts.Get(t) + (if t == UNTAGGED then 1 else 0)
  {
    TagStreamSnoc(table, records, key);
    TallyAppend(TagStream(table, records), TagsOf(table, key));
  }

  /** What one more record adds to the port/protocol counts: one to its own pair and nothing else. */
  lemma PortProtocolContribution(table: LookupTable, records: seq<PortProtocol>, key: PortProtocol)
    ensures forall k :: Aggregate(table, records + [key]).portProtocolCounts.Get(k)
                        == Aggregate(table, records).portProtocolCounts.Get(k) + (if k == key then 1 else 0)
  {
    TallySnoc(records, key);
  }

  /** With every lookup entry non-empty (as a loaded table's are), a record makes at least one tag increment;
      so the tag counts add up to at least the number of records, with equality exactly when every record has
      exactly one tag. */
  lemma {:induction false} TagStreamLength(table: LookupTable, records: seq<PortProtocol>)
    requires forall k :: k in table ==> table[k] != []
    ensures |TagStream(table, records)| >= |records|
    ensures |TagStream(table, records)| == |records| <==> forall i :: 0 <= i < |records| ==> |TagsOf(table, records[i])| == 1
  {
    if records != [] {
      var p, key := records[..|records| - 1], records[|records| - 1];
      TagStreamLength(table, p);
      assert records == p + [key];
      if |TagStream(table, records)| == |records| {
        forall i | 0 <= i < |records|
          ensures |TagsOf(table, records[i])| == 1
        {
          if i < |p| {
            assert records[i] == p[i];
          }
        }
      }
      if forall i :: 0 <= i < |records| ==> |TagsOf(table, records[i])| == 1 {
        assert forall i :: 0 <= i < |p| ==> records[i] == p[i];
        assert |TagsOf(table, records[|records| - 1])| == 1;
      }
    }
  }

  /** The sum of the tag counts is at least the number of records when every lookup entry is non-empty. */
  lemma TagTotalBound(table: LookupTable, records: seq<PortProtocol>)
    requires forall k :: k in table ==> table[k] != []
    ensures Aggregate(table, records).tagCounts.Total() >= |records|
    ensures Aggregate(table, records).tagCounts.Total() == |records|
            <==> forall i :: 0 <= i < |records| ==> |TagsOf(table, records[i])| == 1
  {
    TallyTotal(TagStream(table, records));
    TagStreamLength(table, records);
  }

  /** With an empty lookup table (a missing or header-only lookup file) every record is "Untagged": the tag
      counts hold that one tag, counted once per record. */
  lemma {:induction false} AllUntagged(records: seq<PortProtocol>)
    ensures Aggregate(map[], records).tagCounts
            == if records == [] then Counter([], map[]) else Counter([UNTAGGED], map[UNTAGGED := |records|])
  {
    UntaggedStream(records);
    TallyRepeat(TagStream(map[], records), UNTAGGED);
  }

  /** With an empty table, the pass makes one "Untagged" increment per record. */
  lemma {:induction false} UntaggedStream(records: seq<PortProtocol>)
    ensures |TagStream(map[], records)| == |records|
    ensures forall i :: 0 <= i < |records| ==> TagStream(map[], records)[i] == UNTAGGED
  {
    if records != [] {
      var p := records[..|records| - 1];
      UntaggedStream(p);
      assert TagStream(map[], records) == TagStream(map[], p) + [UNTAGGED];
    }
  }

  /** Every tag the pass counts is "Untagged" or a tag the lookup table lists. */
  lemma {:induction false} TagStreamFrom(table: LookupTable, records: seq<PortProtocol>)
    ensures forall t :: t in TagStream(table, records) ==> t == UNTAGGED || exists k :: k in table && t in table[k]
  {
    if records != [] {
      var p, key := records[..|records| - 1], records[|records| - 1];
      TagStreamFrom(table, p);
      assert TagStream(table, records) == TagStream(table, p) + TagsOf(table, key);
    }
  }

  /** A single record whose key lists two different tags counts each of them once, in the table's order, and
      its pair once. */
  lemma TwoTagsOneRecord(table: LookupTable, key: PortProtocol, a: Tag, b: Tag)
    requires key in table && table[key] == [a, b] && a != b
    ensures Aggregate(table, [key])
            == Counts(Counter([a, b], map[a := 1, b := 1]), Counter([key], map[key := 1]))
  {
    var keys: seq<PortProtocol> := [key];
    assert keys[..0] == [];
    assert TagStream(table, keys) == [a, b];
    TallySnoc([a], b);
    TallySnoc([], a);
    assert [] + [a] == [a] && [a] + [b] == [a, b];
    TallySnoc([], key);
    assert [] + [key] == keys;
  }
}
