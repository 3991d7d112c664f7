# decode_health, modelled in Dafny

`decode_health` reads a gzip-compressed stream of fixed-size binary
detector-health records and turns it into one JSON document. It reads the
records, converts each one to JSON form (a `{unit, value}` field map per
detector, plus a `timestamp`), and sorts them by timestamp. It then pivots
the records into columns, one table per detector (`c1`, `m1`, `m5`, `x1`,
`x123`) with one list of values per field. Finally it summarises three
fields per detector by their mean, minimum and maximum, starting from the
first timestamp.

This project models that pipeline in these modules:

- `Errors`: the Python exceptions the pipeline can raise (`IndexError`,
  `KeyError`, `ValueError`), carried in a `Result`.
- `BinaryReader`: `generic_read_binary`, `read_binary` and its `read_elt`
  body. It works on the decompressed stream, given as a byte sequence. The
  record type is abstract: a size `sz` and a decoder of one `sz`-byte chunk.
- `Collapse`: `collapse_json`, the pivot from a list of field maps to one
  table of columns. It is written as nested loops and proved against a
  fold.
- `Health`: `collapse_health`, which applies the pivot to the projection
  of each detector and adds the timestamp column.
- `Ordering`: the stable sort by timestamp.
- `Summary`: `start_time` and the avg/min/max loops of `main`.
- `Tool`: `main` without its I/O, from the decompressed stream to the
  emitted document.

A Python dict is a Dafny `map` and a list is a `seq`. Field values are
`real`, timestamps are `int`, and the mean is the exact `Sum / len`.

Behaviour of the code that the model keeps:

- The collapsed data is nested as `collapsed[detector][field]`.
- `raw_data` is the collapsed dict itself.
- An empty input raises `IndexError` from `data[0]` in `collapse_json`,
  which `collapse_health` calls for `c1`, before
  `collapsed['timestamp'][0]` is ever reached.
- A record that lacks a key of the first record raises `KeyError`.

## Model

| member | source | states |
|---|---|---|
| BinaryReader.GenericReadBinary | python/umndet/tools/decode_health.py:11-25 | the list returned is `ReadAll`: the truthy values of successive body calls, in stream order, up to (not including) the first falsy value or `struct.error`, which ends the loop without propagating |
| BinaryReader.ReadAllBound | python/umndet/tools/decode_health.py:18-24 | the loop collects at most one value per byte of input, because every value consumes at least one byte |
| BinaryReader.ReadElt | python/umndet/tools/decode_health.py:29-33 | a read of fewer than `sz` bytes (including at end of stream) returns `None`; a record that is returned has consumed exactly `sz` bytes |
| BinaryReader.ReadEltBody | python/umndet/tools/decode_health.py:29-35 | the `read_elt` body always makes progress, so the reading loop ends |
| BinaryReader.ReadBinary | python/umndet/tools/decode_health.py:27-35 | `read_binary` returns the decoded records of the consecutive `sz`-byte chunks, up to the first chunk that is not a record |
| BinaryReader.ReadAllIsTakeRecords | python/umndet/tools/decode_health.py:18-33 | the reading loop with the `read_elt` body equals decoding the stream chunk by chunk |
| BinaryReader.TakeRecordsPrefix | python/umndet/tools/decode_health.py:18-24 | prefix semantics: record `i` is the decoding of chunk `i`; reading stops exactly at the first chunk that is falsy or malformed, and later chunks are dropped even when they are valid |
| BinaryReader.ChunksCount | python/umndet/tools/decode_health.py:28-33 | a stream holds `len // sz` whole chunks |
| BinaryReader.ChunkAt | python/umndet/tools/decode_health.py:28-33 | chunk `i` is the bytes `[i*sz, (i+1)*sz)` of the stream |
| BinaryReader.ChunksIgnoreTail | python/umndet/tools/decode_health.py:31-32 | a trailing partial record shorter than `sz` is discarded without error |
| BinaryReader.ReadRecordsTotal | python/umndet/tools/decode_health.py:27-35 | with a record type that always decodes, `read_binary` returns exactly `len // sz` records, record `i` decoded from bytes `[i*sz, (i+1)*sz)` |
| Collapse.CollapseJson | python/umndet/tools/decode_health.py:40-55 | the nested loops of `collapse_json` compute the pivot `Pivot(data)`: `IndexError` on an empty list, otherwise the fold over the records with the first record's keys |
| Collapse.AddRecord | python/umndet/tools/decode_health.py:45-53 | one pass over the keys appends each value to its existing column, or creates the column with the record's unit; a missing key raises `KeyError`, whatever the key order |
| Collapse.AccumulateOk | python/umndet/tools/decode_health.py:44-53 | the fold succeeds exactly when every record has every collapse key, and otherwise raises `KeyError` |
| Collapse.AccumulateFailsAt | python/umndet/tools/decode_health.py:44-53 | one record without a collapse key makes the whole pivot raise `KeyError` |
| Collapse.ExtendColumn | python/umndet/tools/decode_health.py:46-47 | appending the next record's value keeps an entry the column of its key over the records seen so far |
| Collapse.AccumulateColumns | python/umndet/tools/decode_health.py:44-53 | a successful fold has exactly the collapse keys; column `k` has the first record's unit and lists `data[i][k]['value']` at position `i` |
| Collapse.PivotSpec | python/umndet/tools/decode_health.py:40-55 | `collapse_json`'s contract: `IndexError` on `[]`; otherwise success iff every record has all keys of `data[0]` (extra keys in later records are ignored), else `KeyError`; on success the keys are `data[0]`'s, the units are `data[0]`'s and the columns hold the values in order |
| Health.Project | python/umndet/tools/decode_health.py:62 | `[d[detector] for d in dat]` succeeds iff every record has the detector, else raises `KeyError`; element `i` is record `i`'s entry |
| Health.CollapseEachSpec | python/umndet/tools/decode_health.py:58-62 | the detector loop succeeds iff each detector projects and pivots; an error is `IndexError` on no records and `KeyError` otherwise; on success it maps exactly the visited detectors to the pivots of their projections |
| Health.CollapseHealthSpec | python/umndet/tools/decode_health.py:57-67 | `collapse_health` raises `IndexError` on `[]`, otherwise succeeds iff all five detectors are collapsible, else raises `KeyError`; a result has exactly the five detectors and a timestamp column equal to the input's timestamps in order |
| Health.CollapsedColumns | python/umndet/tools/decode_health.py:57-67 | after `collapse_health`, detector `d`'s table has exactly the first record's fields of `d`, each with the first record's unit and the value of every record, in order |
| Ordering.InsertMultiset | python/umndet/tools/decode_health.py:82 | inserting a record into the sorted prefix adds exactly that record |
| Ordering.InsertSorted | python/umndet/tools/decode_health.py:82 | inserting into a list sorted by timestamp keeps it sorted |
| Ordering.InsertStable | python/umndet/tools/decode_health.py:82 | the inserted record goes after the records with the same timestamp, and the order of the others is unchanged |
| Ordering.SortSpec | python/umndet/tools/decode_health.py:82 | `jsonified.sort(key=timestamp)` gives a list sorted by timestamp that is a permutation of the input and is stable: records with equal timestamps keep their arrival order |
| Ordering.SortedFirstIsMinimum | python/umndet/tools/decode_health.py:82-86 | after the sort, the first record has the least timestamp of all records, and that timestamp belongs to one of them |
| Summary.Min | python/umndet/tools/decode_health.py:95 | `min(cur_data)` is an element of the column that bounds every element from below |
| Summary.Max | python/umndet/tools/decode_health.py:96 | `max(cur_data)` is an element of the column that bounds every element from above |
| Summary.MeanBounds | python/umndet/tools/decode_health.py:94-96 | the `avg` entry lies between the `min` and `max` entries |
| Summary.SummarizeFields | python/umndet/tools/decode_health.py:90-96 | the inner loop raises the fault of the first faulty field (`KeyError` for a missing field, `ValueError` from `min` of an empty column), and otherwise gives exactly the listed fields their avg/min/max |
| Summary.SummarizeSimple | python/umndet/tools/decode_health.py:88-96 | the loop over `c1`, `m1`, `m5`, `x1` raises the first fault in visiting order, and otherwise summarises exactly these four detectors on `arm_temp`, `sipm_temp`, `sipm_operating_voltage` |
| Summary.Summarize | python/umndet/tools/decode_health.py:85-105 | `IndexError` on an empty timestamp column; otherwise success iff no selected column has a fault, and an error is the first fault; `start_time` is the first timestamp; the result holds exactly the four simple detectors and `x123`, the latter summarised on `board_temp`, `det_high_voltage`, `det_temp` |
| Summary.FirstFaultIsAFault | python/umndet/tools/decode_health.py:88-105 | the error the summary raises is the fault of one of the columns it visits |
| Summary.FirstFaultNone | python/umndet/tools/decode_health.py:88-105 | the summary raises nothing exactly when none of the columns it visits has a fault |
| Summary.SelectionColumns | python/umndet/tools/decode_health.py:88-90 | the simple-detector loop visits only the three simple fields of the simple detectors |
| Tool.DecodeHealth | python/umndet/tools/decode_health.py:71-109 | `main` without I/O: no records gives `IndexError`; otherwise it fails exactly when `collapse_health` or the summary raises, with their error; a document's `start_time` is the least timestamp of all records read, and one of them; `raw_data` is the collapse of the sorted records, with a non-decreasing timestamp column; `processed_data` holds the stats of every selected column |
| Tool.SummaryOfCollapsed | python/umndet/tools/decode_health.py:83-105 | after a successful collapse the summary never raises `ValueError`, and raises `KeyError` exactly when the first record lacks one of the selected fields |
| Tool.OrderedTimestamps | python/umndet/tools/decode_health.py:82-86 | the collapsed timestamp column of the sorted records does not decrease, has one entry per record, and starts at the least timestamp |

## Left out

- Gzip decompression (line 17) is left out. The model starts from the decompressed byte stream.
- The record type `ies.DetectorHealth` is abstract. Its ctypes layout, `ctypes.sizeof` and `to_json` are not part of this model: they become the parameters `sz`, `decode` and `toJson`.
- `read_det_health` (lines 37-38) is `read_binary` with that record type. It has no member of its own.
- A ctypes structure is always truthy, so with the real record type `NoRecord` never arises. The model still keeps the `if not new_data` branch.
- `type_()` and `readinto` into a ctypes structure do not raise `struct.error`, so with the real record type `Malformed` never arises either. The model keeps the generic `except struct.error` branch (line 21). The stop at a falsy or malformed chunk in BinaryReader.TakeRecordsPrefix is a property of that generic loop, not of the real reader.
- `readinto` is taken to fill the buffer unless the stream ends first. A partial read is `min(sz, remaining)` bytes. Errors from a truncated gzip stream are not modelled.
- BinaryReader.GenericReadBinary: requires a body that consumes input with every truthy value. A body that returns truthy values without reading makes the source loop forever, and that case is not modelled.
- Reading from stdin, `json.dumps` and the write to stdout (lines 73, 111-112) are I/O and are left out. So are the unused `open_func` parameter and the commented-out lines 75-76.
- Dict insertion order is not modelled, because maps are unordered. It affects only the key order of the emitted JSON.
- Field values are exact reals, not IEEE floats. NaN, infinities and rounding in `np.mean` are not modelled.
- `np.mean` of an empty column is not modelled. `np.mean([])` only warns and returns `nan`, and `min([])` then raises `ValueError`, which the model does raise.
- Ordering.SortByTimestamp: `list.sort` sorts in place with Timsort. The model is a function, a stable insertion sort. Any stable sort gives the same list, so only the in-place update and the algorithm are not captured.
- Summary.Min: requires a non-empty list. The `ValueError` that `min([])` raises is modelled in `Summary.Fault` and checked before the call.
- Summary.Max: requires a non-empty list, for the same reason as Summary.Min.
- Records come from `to_json` of a fixed record type, so each field is a well-formed `{unit, value}` pair. Missing `'unit'` or `'value'` entries inside a field are not modelled.
- Health.HealthJson: every record's JSON form has an integer `timestamp`. A record without one makes the sort key (line 82) raise `KeyError` before `collapse_health` runs, and that `KeyError` is not modelled. Tool.DecodeHealth's statement that `main` fails only when `collapse_health` or the summary raises holds only for such records.
