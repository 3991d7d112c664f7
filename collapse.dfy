/** `collapse_json`: the pivot of a list of per-record field maps
    `{field: {unit, value}}` into one table `{field: {unit, [values...]}}`
    (array of structs to struct of arrays). */
module Collapse {
  import opened Errors

  /** One field of a detector's JSON form, `{'unit': ..., 'value': ...}`. */
  datatype Field = Field(unit: string, value: real)

  type FieldMap = map<string, Field>

  /** One collapsed field, `{'unit': ..., 'value': [...]}`. */
  datatype Column = Column(unit: string, values: seq<real>)

  type Table = map<string, Column>

  /** The entry for `k` once field `f` of the next record is folded in:
      the value is appended to an existing entry; a missing entry is
      created, and only then is the unit taken. */
  function Extend(t: Table, k: string, f: Field): Column
  {
    if k in t then Column(t[k].unit, t[k].values + [f.value])
    else Column(f.unit, [f.value])
  }

  /** One pass of the outer loop over `keys`: every key is looked up in the
      record, and a missing one raises `KeyError`. */
  function AddDatum(keys: set<string>, t: Table, datum: FieldMap): Result<Table>
  {
    if keys <= datum.Keys then Ok(t + map k | k in keys :: Extend(t, k, datum[k]))
    else Err(KeyError)
  }

  /** The table after the outer loop has run over all of `data`. */
  function Accumulate(keys: set<string>, data: seq<FieldMap>): Result<Table>
    decreases |data|
  {
    if data == [] then Ok(map[])
    else
      match Accumulate(keys, data[..|data| - 1])
      case Err(e) => Err(e)
      case Ok(t) => AddDatum(keys, t, data[|data| - 1])
  }

  /** What `collapse_json` returns or raises: `data[0]` raises `IndexError`
      on an empty list, and the keys to collapse are those of `data[0]`. */
  function Pivot(data: seq<FieldMap>): Result<Table>
  {
    if data == [] then Err(IndexError) else Accumulate(data[0].Keys, data)
  }

  /** `collapse_json`, with its nested loops over the records and over the
      keys of the first record. The keys are visited in any order. */
  method CollapseJson(data: seq<FieldMap>) returns (r: Result<Table>)
    ensures r == Pivot(data)
  {
    if |data| == 0 {
      return Err(IndexError);
    }
    var keys := data[0].Keys;
    var ret: Table := map[];
    var i := 0;
    while i < |data|
      invariant 0 <= i <= |data|
      invariant Accumulate(keys, data[..i]) == Ok(ret)
    {
      assert data[..i + 1][..i] == data[..i];
      var next := AddRecord(keys, ret, data[i]);
      if next.Err? {
        AccumulateFailsAt(keys, data, i);
        return next;
      }
      ret := next.value;
      i := i + 1;
    }
    assert data[..i] == data;
    return Ok(ret);
  }

  /** The body of the outer loop of `collapse_json`: fold one record into
      the table, key by key. */
  method AddRecord(keys: set<string>, t: Table, datum: FieldMap) returns (r: Result<Table>)
    ensures r == AddDatum(keys, t, datum)
  {
    var ret := t;
    var todo := keys;
    while todo != {}
      invariant todo <= keys
      invariant keys - todo <= datum.Keys
      invariant ret.Keys == t.Keys + (keys - todo)
      invariant forall k :: k in keys - todo ==> ret[k] == Extend(t, k, datum[k])
      invariant forall k :: k in t && k !in keys - todo ==> ret[k] == t[k]
      decreases todo
    {
      var k :| k in todo;
      if k in ret && k in datum {
        // the `try` branch: append to the existing entry
        ret := ret[k := Column(ret[k].unit, ret[k].values + [datum[k].value])];
      } else if k in datum {
        // the `except KeyError` branch: create the entry from this record
        ret := ret[k := Column(datum[k].unit, [datum[k].value])];
      } else {
        // the handler's own `datum[k]` raises `KeyError` again
        return Err(KeyError);
      }
      todo := todo - {k};
    }
    assert ret == t + map k | k in keys :: Extend(t, k, datum[k]);
    return Ok(ret);
  }

  /** Every record has every one of `keys`. */
  ghost predicate HasKeys(keys: set<string>, data: seq<FieldMap>)
  {
    forall i :: 0 <= i < |data| ==> keys <= data[i].Keys
  }

  /** `c` is the column of `k` over `data`: the first record's unit, and the
      value of `k` in record `i` at position `i`. */
  ghost predicate ColumnOf(c: Column, k: string, data: seq<FieldMap>)
  {
    && data != []
    && k in data[0] && c.unit == data[0][k].unit
    && |c.values| == |data|
    && forall i :: 0 <= i < |data| ==> k in data[i] && c.values[i] == data[i][k].value
  }

  /** `t` holds exactly the columns of `keys` over `data`. */
  ghost predicate Columnar(t: Table, keys: set<string>, data: seq<FieldMap>)
  {
    && t.Keys == keys
    && forall k :: k in keys ==> ColumnOf(t[k], k, data)
  }

  /** Accumulating succeeds exactly when every record has all the keys, and
      otherwise raises `KeyError`. */
  lemma {:induction false} AccumulateOk(keys: set<string>, data: seq<FieldMap>)
    ensures Accumulate(keys, data).Ok? <==> HasKeys(keys, data)
    ensures Accumulate(keys, data).Err? ==> Accumulate(keys, data).error == KeyError
    decreases |data|
  {
    if data != [] {
      var pre := data[..|data| - 1];
      AccumulateOk(keys, pre);
      assert forall i :: 0 <= i < |pre| ==> pre[i] == data[i];
    }
  }

  /** A record that lacks one of the keys makes accumulation raise
      `KeyError`, whatever follows it. */
  lemma AccumulateFailsAt(keys: set<string>, data: seq<FieldMap>, i: int)
    requires 0 <= i < |data| && !(keys <= data[i].Keys)
    ensures Accumulate(keys, data) == Err(KeyError)
  {
    AccumulateOk(keys, data);
  }

  /** Appending the next record's value keeps an entry the column of its key. */
  lemma ExtendColumn(t: Table, k: string, pre: seq<FieldMap>, last: FieldMap)
    requires k in t && ColumnOf(t[k], k, pre) && k in last
    ensures ColumnOf(Extend(t, k, last[k]), k, pre + [last])
  {
    var c := Extend(t, k, last[k]);
    var data: seq<FieldMap> := pre + [last];
    forall i | 0 <= i < |data|
      ensures k in data[i] && c.values[i] == data[i][k].value
    {
      if i < |pre| {
        assert data[i] == pre[i];
      }
    }
  }

  /** A successful accumulation over non-empty `data` gives the columns of
      `keys` over `data`. */
  lemma {:induction false} AccumulateColumns(keys: set<string>, data: seq<FieldMap>)
    requires data != [] && Accumulate(keys, data).Ok?
    ensures Columnar(Accumulate(keys, data).value, keys, data)
    decreases |data|
  {
    var pre, last := data[..|data| - 1], data[|data| - 1];
    assert data == pre + [last];
    var t := Accumulate(keys, pre).value;
    var t' := Accumulate(keys, data).value;
    assert keys <= last.Keys;
    assert t' == t + map k | k in keys :: Extend(t, k, last[k]);
    if pre == [] {
      assert t == map[];
      forall k | k in keys
        ensures ColumnOf(t'[k], k, data)
      {
        assert t'[k] == Column(last[k].unit, [last[k].value]);
      }
    } else {
      AccumulateColumns(keys, pre);
      forall k | k in keys
        ensures ColumnOf(t'[k], k, data)
      {
        ExtendColumn(t, k, pre, last);
      }
    }
  }

  /** The contract of `collapse_json`. It raises `IndexError` on an empty
      list and `KeyError` when a later record lacks a key of the first, and
      otherwise returns a table whose keys are exactly those of `data[0]`
      (keys seen only in later records are ignored), whose units are
      `data[0]`'s, and whose column `k` lists `data[i][k]['value']` for
      every `i`, in order. */
  lemma PivotSpec(data: seq<FieldMap>)
    ensures data == [] ==> Pivot(data) == Err(IndexError)
    ensures data != [] ==> (Pivot(data).Ok? <==> HasKeys(data[0].Keys, data))
    ensures data != [] && Pivot(data).Err? ==> Pivot(data).error == KeyError
    ensures Pivot(data).Ok? ==> Columnar(Pivot(data).value, data[0].Keys, data)
  {
    if data != [] {
      AccumulateOk(data[0].Keys, data);
      if Pivot(data).Ok? {
        AccumulateColumns(data[0].Keys, data);
      }
    }
  }
}
