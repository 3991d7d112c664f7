/** The summary part of `main`: `start_time`, and `min`, `max` and the mean
    of three selected columns per detector. */
module Summary {
  import opened Errors
  import opened Collapse
  import opened Health

  /** `min` of a list: an element of it that bounds every element from below. */
  function Min(s: seq<real>): (m: real)
    requires s != []
    ensures m in s
    ensures forall i :: 0 <= i < |s| ==> m <= s[i]
    decreases |s|
  {
    if |s| == 1 then s[0]
    else
      var m := Min(s[1..]);
      if m < s[0] then m else s[0]
  }

  /** `max` of a list: an element of it that bounds every element from above. */
  function Max(s: seq<real>): (m: real)
    requires s != []
    ensures m in s
    ensures forall i :: 0 <= i < |s| ==> s[i] <= m
    decreases |s|
  {
    if |s| == 1 then s[0]
    else
      var m := Max(s[1..]);
      if s[0] < m then m else s[0]
  }

  function Sum(s: seq<real>): real
    decreases |s|
  {
    if s == [] then 0.0 else s[0] + Sum(s[1..])
  }

  /** `np.mean`, in exact arithmetic. */
  function Mean(s: seq<real>): real
    requires s != []
  {
    Sum(s) / (|s| as real)
  }

  lemma {:induction false} SumBounds(s: seq<real>, lo: real, hi: real)
    requires forall i :: 0 <= i < |s| ==> lo <= s[i] <= hi
    ensures (|s| as real) * lo <= Sum(s) <= (|s| as real) * hi
    decreases |s|
  {
    if s != [] {
      SumBounds(s[1..], lo, hi);
      assert (|s| as real) * lo == lo + (|s[1..]| as real) * lo;
      assert (|s| as real) * hi == hi + (|s[1..]| as real) * hi;
    }
  }

  /** The mean lies between the minimum and the maximum. */
  lemma MeanBounds(s: seq<real>)
    requires s != []
    ensures Min(s) <= Mean(s) <= Max(s)
  {
    SumBounds(s, Min(s), Max(s));
    QuotientBounds(Sum(s), |s| as real, Min(s), Max(s));
  }

  lemma QuotientBounds(x: real, n: real, lo: real, hi: real)
    requires n > 0.0 && n * lo <= x <= n * hi
    ensures lo <= x / n <= hi
  {
    var q := x / n;
    assert q * n == x;
    assert (q - lo) * n >= 0.0 && (hi - q) * n >= 0.0;
    PositiveFactor(q - lo, n);
    PositiveFactor(hi - q, n);
  }

  lemma PositiveFactor(a: real, n: real)
    requires n > 0.0 && a * n >= 0.0
    ensures a >= 0.0
  {
  }

  /** One `cur_proc` entry: `{'avg': ..., 'min': ..., 'max': ...}`. */
  datatype Stats = Stats(avg: real, min: real, max: real)

  function StatsOf(s: seq<real>): Stats
    requires s != []
  {
    Stats(Mean(s), Min(s), Max(s))
  }

  /** `processed_data`: `start_time` and, per detector, the stats of its
      selected fields. */
  datatype ProcessedData = ProcessedData(startTime: int, detectors: map<string, map<string, Stats>>)

  const SIMPLE_DETECTORS: seq<string> := ["c1", "m1", "m5", "x1"]
  const SIMPLE_FIELDS: seq<string> := ["arm_temp", "sipm_temp", "sipm_operating_voltage"]
  const X123_FIELDS: seq<string> := ["board_temp", "det_high_voltage", "det_temp"]

  /** What summarising field `f` of detector `d` raises, if anything:
      `KeyError` from `collapsed[d][f]`, `ValueError` from `min` of an empty
      column. */
  function Fault(c: Collapsed, d: string, f: string): Option<PyError>
  {
    if d !in c.detectors || f !in c.detectors[d] then Some(KeyError)
    else if c.detectors[d][f].values == [] then Some(ValueError)
    else None
  }

  /** The fault of the first column in `sel` that has one. */
  function FirstFault(c: Collapsed, sel: seq<(string, string)>): Option<PyError>
    decreases |sel|
  {
    if sel == [] then None
    else if Fault(c, sel[0].0, sel[0].1).Some? then Fault(c, sel[0].0, sel[0].1)
    else FirstFault(c, sel[1..])
  }

  /** The columns of detector `d` the inner loop visits, in order. */
  function Pairs(d: string, fields: seq<string>): seq<(string, string)>
  {
    seq(|fields|, j requires 0 <= j < |fields| => (d, fields[j]))
  }

  /** The columns the loop over the simple detectors `dets` visits, in order. */
  function Selection(dets: seq<string>): seq<(string, string)>
    decreases |dets|
  {
    if dets == [] then []
    else Selection(dets[..|dets| - 1]) + Pairs(dets[|dets| - 1], SIMPLE_FIELDS)
  }

  /** Every column `main` summarises, in the order it visits them. */
  function SummarySelection(): seq<(string, string)>
  {
    Selection(SIMPLE_DETECTORS) + Pairs("x123", X123_FIELDS)
  }

  /** `m` holds, for exactly the fields `fields` of detector `d`, the stats
      of its column. */
  ghost predicate DetectorSummary(c: Collapsed, d: string, fields: seq<string>, m: map<string, Stats>)
  {
    && (forall f :: f in m <==> f in fields)
    && forall f :: f in fields ==> Fault(c, d, f) == None && m[f] == StatsOf(c.detectors[d][f].values)
  }

  /** The first fault of a concatenation is that of its first part, if any. */
  lemma {:induction false} FirstFaultConcat(c: Collapsed, a: seq<(string, string)>, b: seq<(string, string)>)
    ensures FirstFault(c, a + b) == if FirstFault(c, a).Some? then FirstFault(c, a) else FirstFault(c, b)
    decreases |a|
  {
    if a == [] {
      assert a + b == b;
    } else {
      assert (a + b)[0] == a[0] && (a + b)[1..] == a[1..] + b;
      FirstFaultConcat(c, a[1..], b);
    }
  }

  /** There is no first fault exactly when no column has one. */
  lemma {:induction false} FirstFaultNone(c: Collapsed, sel: seq<(string, string)>)
    ensures FirstFault(c, sel) == None <==> forall p :: p in sel ==> Fault(c, p.0, p.1) == None
    decreases |sel|
  {
    if sel != [] {
      FirstFaultNone(c, sel[1..]);
      assert forall p :: p in sel <==> p == sel[0] || p in sel[1..];
    }
  }

  /** The columns of `Pairs(d, fields)` are those of `d` named in `fields`. */
  lemma PairsColumns(d: string, fields: seq<string>)
    ensures forall p :: p in Pairs(d, fields) ==> p.0 == d && p.1 in fields
  {
    forall p | p in Pairs(d, fields) ensures p.0 == d && p.1 in fields {
      var j :| 0 <= j < |fields| && Pairs(d, fields)[j] == p;
    }
  }

  /** Every column `main` summarises is one of the selected fields of a
      detector `collapse_health` collapses. */
  lemma {:induction false} SelectionColumns(dets: seq<string>)
    ensures forall p :: p in Selection(dets) ==> p.0 in dets && p.1 in SIMPLE_FIELDS
    decreases |dets|
  {
    if dets != [] {
      var pre, d := dets[..|dets| - 1], dets[|dets| - 1];
      SelectionColumns(pre);
      PairsColumns(d, SIMPLE_FIELDS);
      assert forall x :: x in pre ==> x in dets;
    }
  }

  /** The selection of a concatenation of detector lists is the
      concatenation of their selections. */
  lemma {:induction false} SelectionConcat(a: seq<string>, b: seq<string>)
    ensures Selection(a + b) == Selection(a) + Selection(b)
    decreases |b|
  {
    if b == [] {
      assert a + b == a;
    } else {
      var pre := b[..|b| - 1];
      assert (a + b)[..|a + b| - 1] == a + pre;
      SelectionConcat(a, pre);
    }
  }

  /** Once the columns of the detectors before `dets[i]` are fault-free,
      the first fault of `dets[i]`'s columns is the first fault, both up
      to `dets[i]` and of all of them. */
  lemma SelectionStep(c: Collapsed, dets: seq<string>, i: int)
    requires 0 <= i < |dets| && FirstFault(c, Selection(dets[..i])) == None
    ensures FirstFault(c, Selection(dets[..i + 1])) == FirstFault(c, Pairs(dets[i], SIMPLE_FIELDS))
    ensures FirstFault(c, Pairs(dets[i], SIMPLE_FIELDS)).Some? ==>
              FirstFault(c, Selection(dets)) == FirstFault(c, Pairs(dets[i], SIMPLE_FIELDS))
  {
    var here := Pairs(dets[i], SIMPLE_FIELDS);
    assert dets[..i + 1][..i] == dets[..i];
    assert Selection(dets[..i + 1]) == Selection(dets[..i]) + here;
    FirstFaultConcat(c, Selection(dets[..i]), here);
    assert dets == dets[..i + 1] + dets[i + 1..];
    SelectionConcat(dets[..i + 1], dets[i + 1..]);
    FirstFaultConcat(c, Selection(dets[..i + 1]), Selection(dets[i + 1..]));
  }

  /** Once the columns before field `j` are fault-free, field `j`'s fault
      is the first fault, both of the fields up to `j` and of all of them. */
  lemma PairsStep(c: Collapsed, d: string, fields: seq<string>, j: int)
    requires 0 <= j < |fields| && FirstFault(c, Pairs(d, fields[..j])) == None
    ensures FirstFault(c, Pairs(d, fields[..j + 1])) == Fault(c, d, fields[j])
    ensures Fault(c, d, fields[j]).Some? ==> FirstFault(c, Pairs(d, fields)) == Fault(c, d, fields[j])
  {
    var a, p := Pairs(d, fields[..j]), (d, fields[j]);
    assert Pairs(d, fields) == a + [p] + Pairs(d, fields[j + 1..]);
    assert Pairs(d, fields[..j + 1]) == a + [p];
    FirstFaultConcat(c, a, [p]);
    FirstFaultConcat(c, a + [p], Pairs(d, fields[j + 1..]));
  }

  /** The inner loop over `fields` of detector `d`: it raises the first
      fault among those columns, and otherwise gives each field its stats. */
  method SummarizeFields(c: Collapsed, d: string, fields: seq<string>) returns (r: Result<map<string, Stats>>)
    ensures r.Err? <==> FirstFault(c, Pairs(d, fields)).Some?
    ensures r.Err? ==> FirstFault(c, Pairs(d, fields)) == Some(r.error)
    ensures r.Ok? ==> DetectorSummary(c, d, fields, r.value)
  {
    var proc: map<string, Stats> := map[];
    var j := 0;
    while j < |fields|
      invariant 0 <= j <= |fields|
      invariant FirstFault(c, Pairs(d, fields[..j])) == None
      invariant forall f :: f in proc <==> f in fields[..j]
      invariant forall f :: f in fields[..j] ==> Fault(c, d, f) == None && proc[f] == StatsOf(c.detectors[d][f].values)
    {
      var f := fields[j];
      PairsStep(c, d, fields, j);
      if d !in c.detectors || f !in c.detectors[d] {
        return Err(KeyError);
      }
      var curData := c.detectors[d][f].values;
      if |curData| == 0 {
        return Err(ValueError);
      }
      proc := proc[f := Stats(Mean(curData), Min(curData), Max(curData))];
      assert fields[..j + 1] == fields[..j] + [f];
      j := j + 1;
    }
    assert fields[..j] == fields;
    return Ok(proc);
  }

  /** The loop of `main` over the simple detectors, each summarised on the
      same three fields. */
  method SummarizeSimple(c: Collapsed) returns (r: Result<map<string, map<string, Stats>>>)
    ensures r.Err? <==> FirstFault(c, Selection(SIMPLE_DETECTORS)).Some?
    ensures r.Err? ==> FirstFault(c, Selection(SIMPLE_DETECTORS)) == Some(r.error)
    ensures r.Ok? ==> forall d :: d in r.value <==> d in SIMPLE_DETECTORS
    ensures r.Ok? ==> forall d :: d in SIMPLE_DETECTORS ==> DetectorSummary(c, d, SIMPLE_FIELDS, r.value[d])
  {
    var processed: map<string, map<string, Stats>> := map[];
    var i := 0;
    while i < |SIMPLE_DETECTORS|
      invariant 0 <= i <= |SIMPLE_DETECTORS|
      invariant FirstFault(c, Selection(SIMPLE_DETECTORS[..i])) == None
      invariant forall d :: d in processed <==> d in SIMPLE_DETECTORS[..i]
      invariant forall d :: d in SIMPLE_DETECTORS[..i] ==> DetectorSummary(c, d, SIMPLE_FIELDS, processed[d])
    {
      var d := SIMPLE_DETECTORS[i];
      SelectionStep(c, SIMPLE_DETECTORS, i);
      var proc := SummarizeFields(c, d, SIMPLE_FIELDS);
      if proc.Err? {
        return Err(proc.error);
      }
      processed := processed[d := proc.value];
      assert SIMPLE_DETECTORS[..i + 1] == SIMPLE_DETECTORS[..i] + [d];
      i := i + 1;
    }
    assert SIMPLE_DETECTORS[..i] == SIMPLE_DETECTORS;
    return Ok(processed);
  }

  /** The summary part of `main`. `collapsed['timestamp'][0]` raises
      `IndexError` without records; then the simple detectors and `x123`
      are summarised in order, and the first faulty column raises. A result
      starts at the first timestamp and holds the stats of exactly the
      selected columns. */
  method Summarize(c: Collapsed) returns (r: Result<ProcessedData>)
    ensures |c.timestamp| == 0 ==> r == Err(IndexError)
    ensures |c.timestamp| > 0 ==> (r.Ok? <==> FirstFault(c, SummarySelection()) == None)
    ensures |c.timestamp| > 0 && r.Err? ==> FirstFault(c, SummarySelection()) == Some(r.error)
    ensures r.Ok? ==> r.value.startTime == c.timestamp[0]
    ensures r.Ok? ==> forall d :: d in r.value.detectors <==> d in SIMPLE_DETECTORS || d == "x123"
    ensures r.Ok? ==> forall d :: d in SIMPLE_DETECTORS ==>
              DetectorSummary(c, d, SIMPLE_FIELDS, r.value.detectors[d])
    ensures r.Ok? ==> DetectorSummary(c, "x123", X123_FIELDS, r.value.detectors["x123"])
  {
    if |c.timestamp| == 0 {
      return Err(IndexError);
    }
    var startTime := c.timestamp[0];
    FirstFaultConcat(c, Selection(SIMPLE_DETECTORS), Pairs("x123", X123_FIELDS));
    var simple := SummarizeSimple(c);
    if simple.Err? {
      return Err(simple.error);
    }
    var x123 := SummarizeFields(c, "x123", X123_FIELDS);
    if x123.Err? {
      return Err(x123.error);
    }
    assert "x123" !in SIMPLE_DETECTORS;
    return Ok(ProcessedData(startTime, simple.value["x123" := x123.value]));
  }

  /** The first fault is the fault of one of the columns. */
  lemma {:induction false} FirstFaultIsAFault(c: Collapsed, sel: seq<(string, string)>)
    ensures FirstFault(c, sel).Some? ==> exists p :: p in sel && Fault(c, p.0, p.1) == FirstFault(c, sel)
    decreases |sel|
  {
    if sel != [] && Fault(c, sel[0].0, sel[0].1).None? {
      FirstFaultIsAFault(c, sel[1..]);
      if FirstFault(c, sel).Some? {
        var p :| p in sel[1..] && Fault(c, p.0, p.1) == FirstFault(c, sel[1..]);
        assert p in sel;
      }
    }
  }
}
