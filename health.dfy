/** `collapse_health`: the pivot applied to each of the five detectors of a
    list of detector-health records, plus the column of their timestamps. */
module Health {
  import opened Errors
  import opened Collapse

  /** The JSON form of one detector-health record: a field map per
      detector name, and the record's `timestamp`. */
  datatype HealthJson = HealthJson(detectors: map<string, FieldMap>, timestamp: int)

  /** What `collapse_health` returns: a collapsed table per detector name
      and, under `timestamp`, the list of record timestamps. */
  datatype Collapsed = Collapsed(detectors: map<string, Table>, timestamp: seq<int>)

  /** The detectors `collapse_health` collapses, in the order it visits them. */
  const DETECTORS: seq<string> := ["c1", "m1", "m5", "x1", "x123"]

  /** `[d[detector] for d in dat]`: `KeyError` when a record has no entry
      for the detector. */
  function Project(dat: seq<HealthJson>, det: string): (r: Result<seq<FieldMap>>)
    ensures r.Ok? <==> forall i :: 0 <= i < |dat| ==> det in dat[i].detectors
    ensures r.Err? ==> r.error == KeyError
    ensures r.Ok? ==>
              && |r.value| == |dat|
              && forall i :: 0 <= i < |dat| ==> r.value[i] == dat[i].detectors[det]
    decreases |dat|
  {
    if dat == [] then Ok([])
    else if det !in dat[0].detectors then Err(KeyError)
    else
      match Project(dat[1..], det)
      case Err(e) =>
        assert exists i :: 1 <= i < |dat| && det !in dat[i].detectors by {
          var j :| 0 <= j < |dat[1..]| && det !in dat[1..][j].detectors;
          assert dat[j + 1] == dat[1..][j];
        }
        Err(e)
      case Ok(rest) => Ok([dat[0].detectors[det]] + rest)
  }

  /** `[d['timestamp'] for d in dat]`. */
  function Timestamps(dat: seq<HealthJson>): seq<int>
  {
    seq(|dat|, i requires 0 <= i < |dat| => dat[i].timestamp)
  }

  /** The loop of `collapse_health` over the detectors `dets`, in order:
      the first projection or pivot to raise ends it. */
  function CollapseEach(dat: seq<HealthJson>, dets: seq<string>): Result<map<string, Table>>
    decreases |dets|
  {
    if dets == [] then Ok(map[])
    else
      var det := dets[|dets| - 1];
      match CollapseEach(dat, dets[..|dets| - 1])
      case Err(e) => Err(e)
      case Ok(m) =>
        match Project(dat, det)
        case Err(e) => Err(e)
        case Ok(p) =>
          match Pivot(p)
          case Err(e) => Err(e)
          case Ok(t) => Ok(m[det := t])
  }

  /** `collapse_health`. */
  function CollapseHealth(dat: seq<HealthJson>): Result<Collapsed>
  {
    match CollapseEach(dat, DETECTORS)
    case Err(e) => Err(e)
    case Ok(m) => Ok(Collapsed(m, Timestamps(dat)))
  }

  /** Detector `det` can be projected out of every record and pivoted. */
  ghost predicate Collapsible(dat: seq<HealthJson>, det: string)
  {
    Project(dat, det).Ok? && Pivot(Project(dat, det).value).Ok?
  }

  /** The loop over `dets` succeeds exactly when each detector is
      collapsible; it then maps each of them, and nothing else, to the pivot
      of its projection. An empty list of records raises `IndexError`, any
      other failure is a `KeyError`. */
  lemma {:induction false} CollapseEachSpec(dat: seq<HealthJson>, dets: seq<string>)
    ensures CollapseEach(dat, dets).Ok? <==> forall j :: 0 <= j < |dets| ==> Collapsible(dat, dets[j])
    ensures CollapseEach(dat, dets).Err? ==>
              CollapseEach(dat, dets).error == if dat == [] then IndexError else KeyError
    ensures CollapseEach(dat, dets).Ok? ==>
              var m := CollapseEach(dat, dets).value;
              && (forall d :: d in m <==> d in dets)
              && forall d :: d in dets ==> Collapsible(dat, d) && Pivot(Project(dat, d).value) == Ok(m[d])
    decreases |dets|
  {
    if dets != [] {
      var pre, det := dets[..|dets| - 1], dets[|dets| - 1];
      assert dets == pre + [det];
      CollapseEachSpec(dat, pre);
      if CollapseEach(dat, pre).Ok? && Project(dat, det).Ok? {
        PivotSpec(Project(dat, det).value);
      }
    }
  }

  /** The shape of `collapse_health`'s result. Without records it raises
      `IndexError` (from the first pivot); otherwise it succeeds exactly when
      every record has the five detectors, each with every field of the
      first record's, and otherwise raises `KeyError`. A result has exactly
      the five detectors, each mapped to the pivot of its projection, and a
      timestamp column listing the records' timestamps in input order. */
  lemma CollapseHealthSpec(dat: seq<HealthJson>)
    ensures dat == [] ==> CollapseHealth(dat) == Err(IndexError)
    ensures CollapseHealth(dat).Ok? <==> forall d :: d in DETECTORS ==> Collapsible(dat, d)
    ensures dat != [] && CollapseHealth(dat).Err? ==> CollapseHealth(dat).error == KeyError
    ensures CollapseHealth(dat).Ok? ==>
              var c := CollapseHealth(dat).value;
              && (forall d :: d in c.detectors <==> d in DETECTORS)
              && |c.timestamp| == |dat|
              && (forall i :: 0 <= i < |dat| ==> c.timestamp[i] == dat[i].timestamp)
              && forall d :: d in DETECTORS ==> Pivot(Project(dat, d).value) == Ok(c.detectors[d])
  {
    CollapseEachSpec(dat, DETECTORS);
  }

  /** Column content after `collapse_health`: detector `d`'s table has the
      fields of the first record's `d`, each with the first record's unit
      and one value per record, `values[i]` being record `i`'s. */
  lemma CollapsedColumns(dat: seq<HealthJson>, d: string, k: string)
    requires CollapseHealth(dat).Ok? && d in DETECTORS
    ensures dat != [] && d in dat[0].detectors && d in CollapseHealth(dat).value.detectors
    ensures k in CollapseHealth(dat).value.detectors[d] <==> k in dat[0].detectors[d]
    ensures k in CollapseHealth(dat).value.detectors[d] ==>
              var col := CollapseHealth(dat).value.detectors[d][k];
              && col.unit == dat[0].detectors[d][k].unit
              && |col.values| == |dat|
              && forall i :: 0 <= i < |dat| ==>
                   d in dat[i].detectors && k in dat[i].detectors[d] && col.values[i] == dat[i].detectors[d][k].value
  {
    CollapseHealthSpec(dat);
    var p := Project(dat, d).value;
    PivotSpec(p);
  }
}
