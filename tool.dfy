/** `main` without its I/O: decode the records, convert them to JSON form,
    sort them by timestamp, collapse them, and summarise the result. */
module Tool {
  import opened Errors
  import opened BinaryReader
  import opened Collapse
  import opened Health
  import opened Ordering
  import opened Summary

  /** `final_data`: the summary, and as `raw_data` the collapsed dict itself. */
  datatype Document = Document(processedData: ProcessedData, rawData: Collapsed)

  /** `[hd.to_json() for hd in health_data]`. */
  function Jsonify<R>(healthData: seq<R>, toJson: R -> HealthJson): seq<HealthJson>
  {
    seq(|healthData|, i requires 0 <= i < |healthData| => toJson(healthData[i]))
  }

  /** The records `main` collapses: read, converted and sorted. */
  function Ordered<R>(stream: seq<Byte>, sz: nat, decode: seq<Byte> -> Decoded<R>, toJson: R -> HealthJson): seq<HealthJson>
    requires sz > 0
  {
    SortByTimestamp(Jsonify(ReadRecords(stream, sz, decode), toJson))
  }

  /** `main`, from the decompressed input to the document it emits. Without
      records it raises `IndexError`; it otherwise fails exactly when
      `collapse_health` or the summary raises, with their error. A document
      starts at the least timestamp of all records, holds as `raw_data` the
      collapse of the sorted records, whose timestamp column does not
      decrease, and holds the stats of every selected column. */
  method DecodeHealth<R>(stream: seq<Byte>, sz: nat, decode: seq<Byte> -> Decoded<R>, toJson: R -> HealthJson)
    returns (r: Result<Document>)
    requires sz > 0
    ensures ReadRecords(stream, sz, decode) == [] ==> r == Err(IndexError)
    ensures var collapsed := CollapseHealth(Ordered(stream, sz, decode, toJson));
            && (r.Ok? <==> collapsed.Ok? && FirstFault(collapsed.value, SummarySelection()) == None)
            && (r.Err? && collapsed.Err? ==> r.error == collapsed.error)
            && (r.Err? && collapsed.Ok? ==> FirstFault(collapsed.value, SummarySelection()) == Some(r.error))
            && (r.Ok? ==> r.value.rawData == collapsed.value)
    ensures r.Ok? ==>
              var recs := Jsonify(ReadRecords(stream, sz, decode), toJson);
              var start := r.value.processedData.startTime;
              && (exists i :: 0 <= i < |recs| && recs[i].timestamp == start)
              && (forall i :: 0 <= i < |recs| ==> start <= recs[i].timestamp)
    ensures r.Ok? ==>
              var ts := r.value.rawData.timestamp;
              forall i, j :: 0 <= i < j < |ts| ==> ts[i] <= ts[j]
    ensures r.Ok? ==>
              forall d :: d in r.value.processedData.detectors <==> d in SIMPLE_DETECTORS || d == "x123"
    ensures r.Ok? ==>
              && (forall d :: d in SIMPLE_DETECTORS ==>
                    DetectorSummary(r.value.rawData, d, SIMPLE_FIELDS, r.value.processedData.detectors[d]))
              && DetectorSummary(r.value.rawData, "x123", X123_FIELDS, r.value.processedData.detectors["x123"])
  {
    var healthData := ReadBinary(stream, sz, decode);
    var jsonified := Jsonify(healthData, toJson);
    ghost var arrived := jsonified;
    jsonified := SortByTimestamp(jsonified);
    assert jsonified == Ordered(stream, sz, decode, toJson);
    var collapsed := CollapseHealth(jsonified);
    if collapsed.Err? {
      CollapseHealthSpec(jsonified);
      return Err(collapsed.error);
    }
    OrderedTimestamps(arrived);
    var processed := Summarize(collapsed.value);
    if processed.Err? {
      return Err(processed.error);
    }
    return Ok(Document(processed.value, collapsed.value));
  }

  /** After a successful collapse, summarising never raises `ValueError`
      (every column has one value per record, and there is a record), and it
      raises `KeyError` exactly when the first record lacks a selected field. */
  lemma SummaryOfCollapsed(dat: seq<HealthJson>)
    requires CollapseHealth(dat).Ok?
    ensures dat != [] && forall d :: d in DETECTORS ==> d in dat[0].detectors
    ensures var c := CollapseHealth(dat).value;
            && FirstFault(c, SummarySelection()) != Some(ValueError)
            && (FirstFault(c, SummarySelection()) == None <==>
                  forall p :: p in SummarySelection() ==> p.0 in dat[0].detectors && p.1 in dat[0].detectors[p.0])
  {
    var c := CollapseHealth(dat).value;
    var sel := SummarySelection();
    CollapseHealthSpec(dat);
    forall d | d in DETECTORS ensures d in dat[0].detectors {
      CollapsedColumns(dat, d, "");
    }
    SelectionColumns(SIMPLE_DETECTORS);
    PairsColumns("x123", X123_FIELDS);
    assert forall p :: p in sel ==> p.0 in DETECTORS;
    forall p | p in sel
      ensures p.0 in dat[0].detectors
      ensures Fault(c, p.0, p.1) == None <==> p.1 in dat[0].detectors[p.0]
      ensures Fault(c, p.0, p.1) != Some(ValueError)
    {
      CollapsedColumns(dat, p.0, p.1);
    }
    FirstFaultNone(c, sel);
    FirstFaultIsAFault(c, sel);
  }

  /** The timestamp column of the collapsed, sorted records does not
      decrease, and its first entry is the least timestamp of all records
      and one of theirs. */
  lemma OrderedTimestamps(arrived: seq<HealthJson>)
    requires CollapseHealth(SortByTimestamp(arrived)).Ok?
    ensures var ts := CollapseHealth(SortByTimestamp(arrived)).value.timestamp;
            && |ts| == |arrived| > 0
            && (forall i, j :: 0 <= i < j < |ts| ==> ts[i] <= ts[j])
            && (exists i :: 0 <= i < |arrived| && arrived[i].timestamp == ts[0])
            && (forall i :: 0 <= i < |arrived| ==> ts[0] <= arrived[i].timestamp)
  {
    var sorted := SortByTimestamp(arrived);
    SortSpec(arrived);
    CollapseHealthSpec(sorted);
    assert |sorted| == |multiset(sorted)| == |arrived|;
    SortedFirstIsMinimum(arrived);
  }
}
