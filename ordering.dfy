/** The order `main` puts the records in before collapsing them:
    `jsonified.sort(key=lambda e: e['timestamp'])`, a stable sort. */
module Ordering {
  import opened Health

  /** Insert `x` after every record whose timestamp is not greater than its own. */
  function Insert(x: HealthJson, s: seq<HealthJson>): seq<HealthJson>
  {
    if s == [] then [x]
    else if x.timestamp < s[0].timestamp then [x] + s
    else [s[0]] + Insert(x, s[1..])
  }

  /** The list after `sort` by timestamp: insertion of the records in
      arrival order, each after the equal timestamps already placed. */
  function SortByTimestamp(s: seq<HealthJson>): seq<HealthJson>
  {
    if s == [] then [] else Insert(s[|s| - 1], SortByTimestamp(s[..|s| - 1]))
  }

  /** Timestamps do not decrease along `s`. */
  ghost predicate Sorted(s: seq<HealthJson>)
  {
    forall i, j :: 0 <= i < j < |s| ==> s[i].timestamp <= s[j].timestamp
  }

  /** The records of `s` that carry timestamp `t`, in their order in `s`. */
  function WithTimestamp(s: seq<HealthJson>, t: int): seq<HealthJson>
  {
    if s == [] then []
    else WithTimestamp(s[..|s| - 1], t) + (if s[|s| - 1].timestamp == t then [s[|s| - 1]] else [])
  }

  /** Filtering by timestamp distributes over concatenation. */
  lemma {:induction false} WithTimestampConcat(a: seq<HealthJson>, b: seq<HealthJson>, t: int)
    ensures WithTimestamp(a + b, t) == WithTimestamp(a, t) + WithTimestamp(b, t)
    decreases |b|
  {
    if b == [] {
      assert a + b == a;
    } else {
      var pre := b[..|b| - 1];
      assert (a + b)[..|a + b| - 1] == a + pre;
      WithTimestampConcat(a, pre, t);
    }
  }

  /** A sorted list whose first timestamp is above `t` holds no record with
      timestamp `t`. */
  lemma {:induction false} WithTimestampAbove(s: seq<HealthJson>, t: int)
    requires Sorted(s) && s != [] && t < s[0].timestamp
    ensures WithTimestamp(s, t) == []
    decreases |s|
  {
    var pre := s[..|s| - 1];
    if pre != [] {
      WithTimestampAbove(pre, t);
    }
  }

  /** Inserting adds exactly `x`. */
  lemma {:induction false} InsertMultiset(x: HealthJson, s: seq<HealthJson>)
    ensures multiset(Insert(x, s)) == multiset(s) + multiset{x}
    decreases |s|
  {
    if s != [] && x.timestamp >= s[0].timestamp {
      assert s == [s[0]] + s[1..];
      InsertMultiset(x, s[1..]);
    }
  }

  /** Inserting into a sorted list keeps it sorted. */
  lemma {:induction false} InsertSorted(x: HealthJson, s: seq<HealthJson>)
    requires Sorted(s)
    ensures Sorted(Insert(x, s))
    decreases |s|
  {
    if s != [] && x.timestamp >= s[0].timestamp {
      var rest := s[1..];
      InsertSorted(x, rest);
      InsertMultiset(x, rest);
      var ins := Insert(x, rest);
      forall i | 0 <= i < |ins| ensures s[0].timestamp <= ins[i].timestamp {
        assert ins[i] in multiset(ins);
        assert ins[i] == x || ins[i] in multiset(rest);
      }
    }
  }

  /** Inserting into a sorted list places `x` after the records that carry
      its timestamp, and leaves the others' order alone. */
  lemma {:induction false} InsertStable(x: HealthJson, s: seq<HealthJson>, t: int)
    requires Sorted(s)
    ensures WithTimestamp(Insert(x, s), t) == WithTimestamp(s, t) + (if x.timestamp == t then [x] else [])
    decreases |s|
  {
    assert [x][..0] == [];
    if s == [] {
      assert Insert(x, s) == [x];
    } else if x.timestamp < s[0].timestamp {
      WithTimestampConcat([x], s, t);
      if x.timestamp == t {
        WithTimestampAbove(s, t);
      }
    } else {
      var rest := s[1..];
      assert s == [s[0]] + rest;
      InsertStable(x, rest, t);
      WithTimestampConcat([s[0]], Insert(x, rest), t);
      WithTimestampConcat([s[0]], rest, t);
    }
  }

  /** The sort's contract: the result is sorted by timestamp, is a
      permutation of the input, and is stable: for every timestamp, the
      records that carry it keep their arrival order. */
  lemma {:induction false} SortSpec(s: seq<HealthJson>)
    ensures Sorted(SortByTimestamp(s))
    ensures multiset(SortByTimestamp(s)) == multiset(s)
    ensures forall t :: WithTimestamp(SortByTimestamp(s), t) == WithTimestamp(s, t)
    decreases |s|
  {
    if s != [] {
      var pre, last := s[..|s| - 1], s[|s| - 1];
      assert s == pre + [last];
      SortSpec(pre);
      InsertSorted(last, SortByTimestamp(pre));
      InsertMultiset(last, SortByTimestamp(pre));
      forall t ensures WithTimestamp(SortByTimestamp(s), t) == WithTimestamp(s, t) {
        InsertStable(last, SortByTimestamp(pre), t);
      }
    }
  }

  /** The first record after the sort has the least timestamp of all
      records, and it is the timestamp of one of them. */
  lemma SortedFirstIsMinimum(s: seq<HealthJson>)
    requires s != []
    ensures |SortByTimestamp(s)| == |s|
    ensures exists i :: 0 <= i < |s| && s[i].timestamp == SortByTimestamp(s)[0].timestamp
    ensures forall i :: 0 <= i < |s| ==> SortByTimestamp(s)[0].timestamp <= s[i].timestamp
  {
    var r := SortByTimestamp(s);
    SortSpec(s);
    assert |r| == |multiset(r)| == |multiset(s)| == |s|;
    assert r[0] in multiset(s);
    forall i | 0 <= i < |s| ensures r[0].timestamp <= s[i].timestamp {
      assert s[i] in multiset(r);
      var j :| 0 <= j < |r| && r[j] == s[i];
    }
  }
}
