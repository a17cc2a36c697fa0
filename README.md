# Reliability Copilot: a Dafny model of the anomaly and RCA pipeline

This project models the logic of `app.py`, a small Flask service. It reads
operational records (JSON objects from a log file), builds a pandas frame from them
and picks its numeric feature columns. It flags outlier rows with an isolation
forest. For every flagged row it writes a one-sentence root-cause narrative (RCA),
either from a chat-completion model or from a keyword heuristic, plus three kubectl
debug commands. Three endpoints sit on top: `GET /anomalies` returns the flagged
rows, `POST /scan-and-notify` posts a summary to a Slack webhook, and
`POST /run-action` echoes an action behind an approval token.

Modules, in dependency order:

- `Text` (`text.dfy`): the Python string operations the code depends on, as
  Python defines them: `str.strip`, `str.lower`, the `in` substring test, and
  `str()` of an int.
- `Values` (`values.dfy`): records. Each record is an ordered list of fields, as
  Python dicts are. Each field holds a tagged scalar: int, float, string, bool or
  null. Lookup is `dict.get`; `Put` is item assignment.
- `Frames` (`frames.dfy`): `assemble_dataframe` and `detect_anomalies`. The
  DataFrame is a class, because `detect_anomalies` writes the `_anomaly_flag` column
  into its caller's frame.
- `Rca` (`rca.dfy`): `generate_rca_text` and `make_debug_commands`.
- `Endpoints` (`endpoints.dfy`): what the three handlers decide and answer.

External pieces become parameters:

- The isolation forest (`IsolationForest(contamination, random_state=42).fit_predict`)
  is a `Flagger`. This is a deterministic function from the contamination and the
  feature matrix to one flag in {1, -1} per row, or `None` when scikit-learn raises.
  The type itself demands one flag per matrix row, as `fit_predict` gives one label
  per sample, so storing the flags in the frame cannot fail.
  The fixed seed is what makes it deterministic, so repeat runs give the same flags
  by construction.
- The chat-completion call is an oracle `replies: nat -> Reply`. The k-th call gives
  either a reply text or a failure.
- `json.dumps` of a row is a parameter `contextOf`.
- The environment variables are plain arguments: the contamination, whether the
  model is enabled, the webhook and the approval token.
- The log file is the record sequence. A missing file is the empty sequence.

Column order follows pandas 0.25 and later for a list of dicts: a column's position
is where its name is first seen, record by record and field by field. A column is
numeric (`int64`/`float64`) when every record holds an int, a float, null or nothing
there, and at least one record holds a number or nothing (pandas fills a missing
field with the float NaN). A column holding a bool or a string, or null in every
record, is `object` or `bool`, and the model leaves it out as `select_dtypes` does.

`Lower` folds ASCII letters only. This gives the same keyword classification as
Python's full Unicode `str.lower()`. The only non-ASCII characters whose lowercase
holds an ASCII letter are U+0130 (to `i`) and U+212A (to `k`). Those letters occur
only in the keyword `"oomkilled"`, and `Rca.OomKilledIsSubsumed` proves that test
is decided by `"oom"` alone.

Four behaviours of the code that the model keeps as they are:

- The code scores frames of any size, a single row included.
- A non-numeric `"value"` column is passed to the forest unconverted. The flagger may
  then fail, giving `Err(FitFailed)`.
- A failing model call gives the fixed fallback message; the heuristic is not tried.
- Detection returns only the rows flagged -1, each carrying its flag.

## Model

| member | source | states |
|---|---|---|
| `Text.Strip` | app.py:63 | the reply text minus its surrounding whitespace: a middle slice of the input with only whitespace around it and none at its own ends |
| `Text.StripUnique` | app.py:63 | any string meeting that description is exactly what `Strip` returns, so the description pins down `str.strip()` |
| `Text.StripIdempotent` | app.py:63 | stripping a stripped reply changes nothing |
| `Text.LowerIdempotent` | app.py:67 | after lower-casing, no upper-case ASCII letter remains, and lower-casing again changes nothing |
| `Text.Lower` | app.py:67 | `str.lower()` on ASCII: the same length, each character lowered on its own, upper-case letters to lower case and everything else kept |
| `Text.ContainsAt` | app.py:68-73 | the `in` test holds exactly when the keyword occurs at some position of the text |
| `Text.Contains` | app.py:68-73 | the `in` test; `ContainsAt` states what it means: the keyword occurs at some position |
| `Text.LowerContains` | app.py:67-73 | searching the lower-cased context is the same as a case-insensitive search of the original context |
| `Text.NatTextRoundTrip` | app.py:104 | the decimal text the summary writes for the count reads back as the same count |
| `Text.NatText` | app.py:104 | `str()` of a count: a non-empty string of digits with no leading zero, and 0 is exactly `"0"`; `NatTextRoundTrip` reads it back |
| `Values.Lookup` | app.py:77-78 | `get` finds a value exactly when the name is a field of the record, and the value found is that of the first field with the name |
| `Values.Put` | app.py:48 | item assignment: the first field with the name is overwritten in place, or the field is appended; its contract is `PutLookupSame`, `PutLookupOther` and `PutNames` |
| `Values.Render` | app.py:80-82 | `str()` of a scalar as an f-string inserts it: decimal for ints, the repr for floats, the text itself for strings, `True`/`False`, `None` |
| `Values.PutLookupSame` | app.py:48 | after the flag column is stored, the row holds the stored value under it |
| `Values.PutLookupOther` | app.py:48 | storing the flag column leaves every other field's value unchanged |
| `Values.PutNames` | app.py:48 | storing a column keeps the field order; a new name is appended at the end |
| `Frames.ColumnsOf` | app.py:37 | the frame's columns are every field name of every record, each once |
| `Frames.ColumnsPrefix` | app.py:37 | column order is first-seen order: the columns of leading records a come first, followed by the names of the later records b that are new, in the order b holds them |
| `Frames.ColumnsFirstSeen` | app.py:37 | the columns are the records' field names, and one column comes before another exactly when its first occurrence (by record, then by field) comes first |
| `Frames.IsNumericColumn` | app.py:37-38 | pandas' dtype rule for a column of a list of dicts: int64/float64 exactly when every record holds a number, null or nothing there and some record holds a number or nothing |
| `Frames.ColumnsOfOne` | app.py:37 | a single record's columns are its own field names, in its own order |
| `Frames.SelectNumeric` | app.py:38 | the selected columns are exactly the columns pandas types as int64/float64, in the frame's column order, without duplicates |
| `Frames.SelectNumericUnique` | app.py:38 | any ordered selection of exactly the numeric columns is `SelectNumeric`, so membership and order determine it |
| `Frames.NumericColumns` | app.py:38-40 | the features are exactly the numeric columns plus `"value"` when it is a column; no duplicates; the numeric ones come first in column order; a non-numeric `"value"` comes last, and otherwise the features are the numeric columns alone |
| `Frames.CollectRows` | app.py:31-34 | the append loop copies the records in input order |
| `Frames.DataFrame.constructor` | app.py:37 | the frame's rows are the records and its columns are `ColumnsOf` the records |
| `Frames.DataFrame.Empty` | app.py:44 | `df.empty`, used by the guard of `detect_anomalies` and by the handler at app.py:90: no rows or no columns |
| `Frames.DataFrame.SetColumn` | app.py:48 | with one value per row, each row gets its value and a new name joins the columns; otherwise pandas raises and nothing changes |
| `Frames.AssembleDataFrame` | app.py:30-41 | returns a fresh frame of the records with their feature columns; for no records, an empty frame with no features |
| `Frames.FeatureMatrix` | app.py:47 | one matrix row per record and one cell per feature column |
| `Frames.FillNa` | app.py:47 | `fillna(0)` on one cell: never null; a present non-null value is kept and a missing or null one becomes 0 |
| `Frames.FeatureMatrixCells` | app.py:47 | fillna(0): a missing or null feature reads as 0, a present one is kept, and no cell is null |
| `Frames.TruePositions` | app.py:49 | indexing by a boolean mask selects the positions where it holds, each once, strictly ascending |
| `Frames.FlaggedPositions` | app.py:49 | the positions of exactly the rows whose flag is -1, strictly ascending |
| `Frames.FlaggedRows` | app.py:49 | the filtered frame is those rows, in their original order |
| `Frames.Detect` | app.py:43-49 | `detect_anomalies` on values: an error exactly when there is something to score and the forest raises, and then only `FitFailed`; otherwise at most one row per input row. `DetectKeepsFlaggedRows` states which rows |
| `Frames.DetectAnomalies` | app.py:43-49 | the result equals `Detect` on the frame. When the flags are stored, the caller's frame gains the `_anomaly_flag` column; otherwise the frame is unchanged |
| `Frames.DetectKeepsFlaggedRows` | app.py:44-49 | an empty frame or no features gives no rows. Otherwise the result is the rows flagged -1, and exactly those, in input order, each carrying flag -1 |
| `Rca.Heuristic` | app.py:66-74 | the message is one of four fixed strings. Error keywords win over memory keywords, which win over latency keywords. Each message is chosen exactly when its rule is the first to match |
| `Rca.OomKilledIsSubsumed` | app.py:70 | the `"oomkilled"` test never decides anything beyond `"oom"` |
| `Rca.HeuristicIgnoresCase` | app.py:67-74 | the same four-way choice, stated on the original context with letter case ignored |
| `Rca.RcaText` | app.py:51-74 | model enabled and reply received: the reply stripped. Model enabled and call failed: the fixed fallback text. Model off: the heuristic |
| `Rca.FailureDoesNotFallThrough` | app.py:64-65 | a failed call gives a text that is none of the heuristic messages and does not depend on the context |
| `Rca.ReplyIsStripped` | app.py:63 | a used reply has no whitespace at either end |
| `Rca.FieldText` | app.py:77-78 | the default is used exactly when the field is absent; otherwise the field's value is rendered |
| `Rca.DebugCommands` | app.py:76-83 | exactly the keys describe, logs and top. Each value is its kubectl template with the row's pod and namespace (or their defaults) filled in, with `--tail=200` on logs |
| `Rca.CommandsReadOnlyPodAndNamespace` | app.py:76-83 | the commands depend on the pod and namespace fields only |
| `Rca.CommandsIgnoreFlagColumn` | app.py:95 | storing the anomaly flag in the row leaves its commands unchanged |
| `Rca.CommandsForNamedPod` | app.py:79-83 | with string pod and namespace fields, the commands are the three templates filled with them |
| `Endpoints.Items` | app.py:91-96 | one item per anomalous row, in the same order, made from that row |
| `Endpoints.CollectItems` | app.py:91-96 | the handler's loop builds exactly `Items` |
| `Endpoints.AnomaliesOf` | app.py:86-97 | the handler's answer: no records gives count 0 and no items; a successful answer counts its items, at most one per record; the only error is `FitFailed`. `AnomaliesFollowFlags` states which items |
| `Endpoints.Anomalies` | app.py:86-97 | the handler answers exactly `AnomaliesOf` the records |
| `Endpoints.AnomaliesFollowFlags` | app.py:89-97 | the count equals the number of items, and no records gives count 0. When the flagger returns flags, the k-th item is the k-th row flagged -1, in input order, with its narrative from the k-th model call and its commands |
| `Endpoints.NoFeaturesNoAnomalies` | app.py:38-45 | when every field holds a string or a bool and no record has a `"value"` field, the answer is empty |
| `Endpoints.EmptyLogsFailAsWritten` | app.py:35-36 | as written, empty logs make the handler fail at the two-name unpack. With any record it agrees with the corrected model |
| `Endpoints.AnomaliesAsWritten` | app.py:86-97 | the handler exactly as written, failing at the two-name unpack of app.py:89 for no records; `EmptyLogsFailAsWritten` states it |
| `Endpoints.EmptyLogsGiveNoAnomalies` | app.py:89-90 | corrected: empty logs give `{"count": 0, "items": []}` |
| `Endpoints.Summary` | app.py:104 | the f-string `Reliability Copilot: {count} anomaly(ies). First RCA: {rca}`; `SummaryRoundTrip` states that it carries both without loss |
| `Endpoints.SummaryRoundTrip` | app.py:104 | the count and the first narrative can be read back from the summary without loss |
| `Endpoints.ScanAndNotify` | app.py:100-110 | count 0: not notified, reason "no anomalies", nothing posted. Otherwise: notified, the summary is the f-string filled with the count in decimal and the first item's narrative (and reads back as both), and it is posted exactly when a webhook is set. An error from anomalies() propagates |
| `Endpoints.NotifiedWhateverTheDelivery` | app.py:105-110 | a failed post changes nothing in the answer |
| `Endpoints.RunAction` | app.py:115-121 | refused exactly when the header token differs from the approval token. When the token matches and the body is readable, the action is echoed unchanged |
| `Endpoints.HeaderToken` | app.py:116 | `request.headers.get("X-APPROVAL-TOKEN", "")`: the header's value, or `""` when it is missing |
| `Endpoints.TokenCheckedFirst` | app.py:116-119 | a refused request's answer does not depend on the body. A missing header counts as `""`, so it passes only when the approval token is empty |

## Findings

| source | as written | input that shows it | evidently intended | confidence | as-written member | corrected member |
|---|---|---|---|---|---|---|
| app.py:35-36, app.py:89 | `assemble_dataframe` returns a bare `pd.DataFrame()` when there are no records. The handler unpacks the result into `df, numcols`; a column-less frame yields no values, so Python raises ValueError and the request fails | no `logs.json`, or an empty list in it | `GET /anomalies` answers count 0, and `POST /scan-and-notify` answers "no anomalies" | not executed; follows from Python's unpacking of a DataFrame, which iterates its column labels | `Endpoints.EmptyLogsFailAsWritten` | `Endpoints.EmptyLogsGiveNoAnomalies` (via `Frames.AssembleDataFrame`) |

## Left out

- Flask routing, request and response objects, `jsonify` and `/health` (app.py:85, 99, 114, 123-129): the endpoints are functions from their inputs to the body they answer with.
- `load_local_logs` (app.py:24-28): file I/O. The records are a parameter, and a missing file is the empty sequence. A file that holds JSON other than a list of objects is not modelled.
- The OpenAI request (app.py:55-62): a network service. Only its outcome is modelled, as a reply text or a failure; the prompt, `max_tokens` and `temperature` are not.
- The Slack post (app.py:107): network I/O. Only whether a post is made, and its text, are modelled; its delivery outcome is a parameter that the answer ignores.
- Isolation-forest scoring (app.py:46-48): floating point and random trees inside scikit-learn, which is not part of this model. The flagger stands for it, and so determinism holds by construction rather than by proof.
- Environment configuration (app.py:15-22, 113): passed in as arguments. `PROM_URL` and `PROM_QUERY` are unused by the logic.
- `json.dumps` of a row (app.py:93): the context text is a parameter of the row.
- Text.Lower: folds ASCII letters only, not the full Unicode `str.lower()`; the keyword classification is the same for the reason given above.
- Values.Render: a float is carried as its Python repr string. Arithmetic on floats, NaN and infinities are not modelled; no part of the modelled logic computes with them.
- Frames.NumericColumns: follows the stated int/float/null rule. It does not model integers outside the int64 range (pandas types them `uint64` or `object`; neither is selected) or the other dtype inference corner cases.
- Endpoints.Items: an item's `row` is the record with its flag field, in the record's own field order. The model omits what `iterrows()` and `to_dict()` change: the row's fields follow the frame's column order, columns the record lacks appear as NaN, ints become floats in columns that have NaN, and when every column is int64 or float64 and at least one of them is float64, iterrows upcasts every int in the row to float, the flag included (`-1.0`). A lacking `pod`/`namespace` field in a frame that has that column makes `row.get` return NaN, not the default (app.py:95). The model uses the default.
- Duplicate field names: `json.load` keeps the last value of a repeated key, so a loaded record never has two fields with one name. The model's records may, and `Lookup` then reads the first; the modelled logic never creates such a record.
- Endpoints.RunAction: a body that is not JSON, or not an object, is one `BadBody` answer. The exact status code depends on the Flask version and is not modelled.
