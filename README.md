# A push-based single-table query pipeline, in Dafny

This project models the query pipeline of `index.js`. A query plan is executed by wiring three operators in a row, from the sink backwards:
- the console logger;
- a projection that narrows records to listed columns;
- a selection that keeps the records whose column equals a value;
- a file scan over tabular text.

The scan takes its first line as the schema. It zips every later line with the schema into a record and pushes it downstream the moment it is read. Each operator owns a FIFO queue of pending records. `receive` enqueues a record and starts draining only when the queue goes from empty to one record. The drain takes the head, processes it, forwards the result to every receiver in list order, and recurses while the queue is non-empty.

The model keeps that form:
- the operators are classes whose methods change their queues, the scan's row cursor and schema, and the console's output;
- the drains are recursive methods, as in the source;
- the scan's `init` is a `while` loop;
- each method is proved against pure specification functions (`Zip`, `Table`, `Matching`, `Projected`, `Execute`);
- lemmas state what those functions promise: soundness, completeness and order of the filter, the exact columns of a projection and its idempotence, and the exact result on the embedded data.

Modules and files:
- `Wrappers` (`wrappers.dfy`): `Option` stands for `undefined`.
- `Text` (`text.dfy`): splitting on a one-character separator, and its inverse.
- `Records` (`records.dfy`): row parsing, the EQUALS predicate and projection, as pure functions.
- `QueryNodes` (`query_nodes.dfy`): the console and the projection and selection operators.
- `Scan` (`file_scan.dfy`): the file scan.
- `Executor` (`executor.dfy`): the executor's fixed wiring, its specification, and the embedded plan and data.

## Model

| member | source | states |
|---|---|---|
| Text.Split | index.js:112 | splitting always yields at least one field, so line 0 and the schema always exist |
| Text.SplitFieldsPlain | index.js:112 | no field of a split contains the separator |
| Text.JoinSplit | index.js:112 | joining the fields of a split with the separator gives back the text: splitting loses nothing |
| Text.SplitPlain | index.js:115 | a text without the separator splits into itself alone |
| Text.SplitCons | index.js:117 | a separator-free leading field followed by the separator splits off as the first field |
| Text.SplitJoin | index.js:112 | separator-free fields joined with the separator split back into exactly those fields |
| Records.Zip | index.js:117-120 | folding a row's values into an empty object stores each value under its column, so the record has at most one column per value |
| Records.ZipKeys | index.js:117-120 | the record built from a row has exactly one key per value position: the schema's name for that position, or "undefined" past the schema's end |
| Records.ZipAt | index.js:117-120 | the i-th value is stored under its column unless a later value of the row lands on the same column |
| Records.RowOfSchema | index.js:117-120 | a row with as many values as distinctly named columns maps exactly the schema's columns, each to its own value |
| Records.ShortRowOmitsColumns | index.js:117-120 | a row with fewer values than columns leaves the missing columns absent |
| Records.ParseRow | index.js:117-120 | a line split on commas and zipped with the schema always has at least one column, since even an empty line has one (empty) value |
| Records.Lines | index.js:104 | the source always has at least one line |
| Records.Header | index.js:115 | the schema from line 0 has at least one name |
| Records.Rows | index.js:104-106 | zipping a run of lines gives one record per line |
| Records.RowsAt | index.js:104-106 | record i of a run of lines is line i zipped with the schema |
| Records.Table | index.js:104 | there is one record per line after the first, so a source of at most one line has none |
| Records.TableAt | index.js:109-120 | record i of the table is line i + 1 zipped with the schema split from line 0 |
| Records.Matching | index.js:134-136 | filtering never produces more records than it is given |
| Records.MatchingMembers | index.js:133-136 | a record survives the EQUALS filter if and only if it is one of the input records and it satisfies `Matches`: its column (read by `Lookup`, absent reading as undefined) strictly equals the literal (`Holds`), so a present column must hold the literal and an absent one matches only undefined |
| Records.MatchingStep | index.js:134-139 | filtering one more record appends it exactly when it matches |
| Records.MatchingAppend | index.js:130-139 | filtering a concatenation is the concatenation of the filtered parts |
| Records.MatchingCons | index.js:131-139 | filtering a queue handles its head first, then its tail |
| Records.MatchingSingle | index.js:134-136 | when exactly one record matches, the filter yields that record alone |
| Records.MatchingNone | index.js:134-136 | when no record matches, the filter yields nothing |
| Records.MatchingIsSubsequence | index.js:130-139 | the surviving records keep arrival order: they form a subsequence of the input |
| Records.ProjectRecord | index.js:158-163 | the narrowed record copies only keys the input record has |
| Records.ProjectRecordFields | index.js:158-163 | the projected record's keys are exactly the input's keys that appear in the header list, each with the input's value |
| Records.ProjectIdempotent | index.js:158-163 | projecting a projected record with the same headers gives the same record |
| Records.ProjectListedColumns | index.js:158-163 | a record whose keys are all listed is projected to itself |
| Records.Projected | index.js:156-167 | the projection emits one record per input, each the projection of the input at the same position |
| Records.ProjectedIdempotent | index.js:156-167 | projecting a whole stream twice is projecting it once |
| Records.ProjectedAppend | index.js:156-167 | projection distributes over concatenation |
| Records.ProjectedSubsequence | index.js:156-167 | projection maps a subsequence of a stream to a subsequence of its projection |
| QueryNodes.Console.constructor | index.js:40 | a new console has logged nothing |
| QueryNodes.Console.Log | index.js:40 | logging appends the record to the console output and changes nothing else |
| QueryNodes.Projection.constructor | index.js:151-155 | the new projection has the given receivers and headers and an empty queue |
| QueryNodes.Projection.Logged | index.js:82-84 | forwarding each of a run of records to every receiver logs one copy per record and receiver |
| QueryNodes.Projection.Receive | index.js:63-70 | on an empty queue the record is projected and logged once per receiver, and the queue ends empty; on a non-empty queue the record is appended at the tail and nothing else happens |
| QueryNodes.Projection.GetNextRecord | index.js:75-77 | the head of the queue is removed and returned and the rest stays in order; an empty queue yields undefined |
| QueryNodes.Projection.Forward | index.js:82-84 | the same record goes to every receiver, in list order, and nothing else is logged |
| QueryNodes.Projection.Project | index.js:156-168 | the drain empties the queue and logs the projection of every queued record, in queue order, once per receiver |
| QueryNodes.ProjectionSingleLog | index.js:40-41 | with the single console logger as receiver, a projection logs exactly the records it forwards |
| QueryNodes.FanOut | index.js:82-84 | forwarding a record to each projection in turn, every one idle, logs one narrowed copy per receiver of each projection |
| QueryNodes.Selection.constructor | index.js:125-129 | the new selection has the given receivers and criterion and an empty queue |
| QueryNodes.Selection.Forwarded | index.js:82-84 | forwarding each of a run of records fans each one out, one narrowed copy per record and downstream receiver |
| QueryNodes.Selection.Receive | index.js:63-70 | on an empty queue the record is drained at once: the console gains its `Reaction`, the record fanned out to the projections when it matches and nothing otherwise, the queue ends empty, and the call fails exactly when the comparator is unknown; on a non-empty queue the record is only appended |
| QueryNodes.Selection.GetNextRecord | index.js:75-77 | the head of the queue is removed and returned and the rest stays in order; an empty queue yields undefined |
| QueryNodes.Selection.Forward | index.js:82-84 | the record goes to every downstream projection in list order, each logging its own projection, and the projections end idle |
| QueryNodes.Selection.Select | index.js:130-140 | the comparator is known exactly when `GetPredicate` finds one for the comparison symbol, which only "EQUALS" does; with a known comparator the drain empties the queue and forwards exactly the matching records, unchanged and in order; with an unknown one it fails on the first record after dequeuing it, forwarding nothing |
| QueryNodes.Selection.ForwardedCons | index.js:131-139 | draining a queue logs its head's `Reaction` (the head fanned out to the projections when it matches, nothing otherwise), then what the tail forwards |
| QueryNodes.Selection.ReactionSingle | index.js:63-70 | draining a queue of one record forwards what the selection does for that record |
| QueryNodes.SelectionChain | index.js:41-42 | in the chain selection, projection, logger, the console receives each forwarded record narrowed to the projection's columns, in order |
| Scan.FirstUnknown | index.js:141-147 | the position of the first selection whose comparator is unknown: every earlier one is known |
| Scan.Broadcast | index.js:82-84 | handing a record to each selection in turn logs nothing when no selection accepts it |
| Scan.BroadcastSnoc | index.js:83 | delivering to one more selection adds what that selection logs for the record |
| Scan.FileScan.constructor | index.js:96-101 | construction reads the whole source: every record is forwarded in line order and the cursor ends past the last line, or the scan stops at the first record when a downstream selection fails, after delivering it to the selections before the failing one |
| Scan.FileScan.Delivered | index.js:104-106 | forwarding records that no selection accepts logs nothing |
| Scan.FileScan.DeliveredStep | index.js:104-106 | forwarding one more record adds what that record broadcasts |
| Scan.FileScan.DeliveredAfter | index.js:104-106 | when every selection is known, the log after one more pass of the loop is the log of the records so far plus that record's broadcast |
| Scan.FileScan.Init | index.js:102-108 | the loop forwards the records of lines 1 to the last, in order, and sets the schema from line 0 when there is a record; a failure downstream stops it on line 1 |
| Scan.FileScan.ScanRow | index.js:105-106 | one pass of the loop forwards the current line's table record to the selections up to the first failing one, and advances the cursor exactly when none fails |
| Scan.FileScan.ReadRow | index.js:109-121 | the schema is set from line 0 only when still unset, and the record is the current line zipped with it; with the schema from line 0 it is the table's record for that line |
| Scan.FileScan.Forward | index.js:82-84 | the record goes to every selection in list order; delivery stops at the first one whose comparator is unknown, and the call then fails |
| Scan.FileScan.HandOn | index.js:83 | handing the record to one selection logs what that selection does for it, or nothing when its comparator is unknown, and leaves every operator idle |
| Scan.ChainStep | index.js:83 | in the executor's chain, handing one record to the selection logs it narrowed to the projection's columns when it matches, and nothing otherwise |
| Scan.ScanChain | index.js:41-43 | in the executor's chain the console receives the matching records of the scanned stream, narrowed, in source order |
| Executor.Execute | index.js:38-45 | a failed run logs nothing, and a completed run logs at most one record per table record |
| Executor.Run | index.js:38-45 | building console, projection, selection and scan in that order and letting the scan run logs exactly the projected matching records of the table, or fails exactly when `Execute` does |
| Executor.ExecuteSelects | index.js:38-45 | a record is logged if and only if it is the projection of a table record that satisfies the selection |
| Executor.ExecuteOrder | index.js:38-45 | the logged records keep source order: they are a subsequence of the whole projected table |
| Executor.UnknownComparatorFails | index.js:141-147 | a comparison symbol for which `GetPredicate` finds no comparator makes the run fail exactly when the source has a record, and then nothing is logged |
| Executor.ConfiguredSelection | index.js:132-134 | the selection's configuration is read by position (`Destructure`, with `ConfigAt` and `OrUndefined` for missing parts): `[header, "EQUALS", value]` keeps the records whose column holds the value, `[header, "EQUALS"]` leaves the value undefined and keeps the records without the column, and neither run fails |
| Executor.SecondEntryIsSelection | index.js:42 | the plan's second entry configures the selection whatever its kind: with fewer than two configuration strings the comparison is undefined and a source with a record fails with `UnknownComparator("undefined")` |
| Executor.NoRecordsNoOutput | index.js:104 | a source of at most one line logs nothing and does not fail |
| Executor.DummyDataLines | index.js:27-36 | the embedded data splits into its ten lines |
| Executor.DummyHeader | index.js:27 | the schema discovered from the embedded data is id, title, rating |
| Executor.DummyMovieLines | index.js:28-36 | line i of the embedded data is movie i's line |
| Executor.ParseMovie | index.js:117-120 | a movie line zipped with the schema gives the movie's id, title and rating |
| Executor.DummyTable | index.js:27-36 | the embedded table is the nine movies in order |
| Executor.MovieTitle | index.js:23 | a movie matches title "movie4" exactly when it is movie 4 |
| Executor.MovieOtherTitle | index.js:23 | a movie matches no title but its own |
| Executor.DummyMatching | index.js:23-36 | the embedded selection keeps movie 4 alone |
| Executor.ProjectMovie4 | index.js:22 | narrowing movie 4 to its rating gives {rating: "4"} |
| Executor.DummyResult | index.js:21-36 | the embedded plan run over the embedded lines logs exactly {rating: "4"} and does not fail |
| Executor.DummyRun | index.js:21-45 | the executor run on the embedded query and data logs exactly one record, {rating: "4"} |
| Executor.DummyNoMatching | index.js:23 | filtering the embedded table by any title other than movie1 to movie9 keeps nothing |
| Executor.DummyNoMatch | index.js:21-45 | asking the embedded data for such a title logs nothing and does not fail |

## Left out

- The console is a `Console` object whose `output` collects what `console.log` would print. Printing itself is not modelled.
- Receivers are closures bound with `bind` in the source. Here receiver lists are typed by the stage that follows in the fixed plan:
  - a scan forwards to selections;
  - a selection to projections;
  - a projection to `Log` receivers.

  The general `QueryNode` taking any function as a receiver is not modelled. `receive` and `getNextRecord` are modelled where they are used, on projections and selections. The scan inherits them but never calls them.
- The no-op `end()` hook (index.js:92) has no behaviour. The module-level `new Executor(query)` (index.js:171) is the lemma `Executor.DummyRun`, not a statement that runs.
- The scan reads a `source` parameter instead of the global `dummyData`. `Executor.DummyData` is the embedded text written as its ten lines joined with newlines, which is the same string.
- JavaScript throws a `TypeError` when `getPredicate` returns `undefined` and the selection calls it. The model returns `ok = false` instead:
  - the failure goes up through `Receive`, `Forward` and the scan;
  - the scan records it in `aborted`;
  - `Run` returns it as `UnknownComparator`.

  A plan with fewer than two entries throws in the source, because building the projection (no entry) or the selection (one entry) reads a missing entry; the model returns `MalformedPlan`. The entries' kinds are never read: a second entry of any kind configures the selection, so `[PROJECTION, FILESCAN]` fails with `UnknownComparator("undefined")` on the first record.
- Records are maps, so the insertion order of keys (`Object.keys` order) is not modelled. It only affects the order in which a record's fields are displayed.
- Records.Zip: a column named `__proto__` is stored like any other, whereas in JavaScript assigning a string to `obj["__proto__"]` goes to the inherited setter and stores nothing. Records are plain maps; the prototype chain is not modelled.
- Records.Lookup: an absent column reads as `undefined`, whereas in JavaScript `currentRow[header]` for an inherited name such as `constructor`, `toString` or `__proto__` reads the inherited member. With an undefined comparison value the source then rejects a record that `Records.Matches` accepts.
- A data line with more values than the schema stores the extra values under the key "undefined", as JavaScript does with `obj[undefined]` (`Records.Key`). An undefined selection header reads the column "undefined" in the same way.
- The selection destructures its configuration when it is built, not on every `select`. The configuration is never changed, so this is the same.
- Plan entries carry a list of configuration strings. A non-list configuration, for which `includes` would mean substring search, is not modelled.
- The drains stay recursive, as in the source. Stack depth is not modelled.
- One pass of the scan loop (`Scan.FileScan.ScanRow`) and one step of the scan's `forEach` (`Scan.FileScan.HandOn`) are separate methods with their own contracts. They do exactly what the loop bodies do.
