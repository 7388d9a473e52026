# koaflow-test: TimeFlow and compare, modelled in Dafny

This project models the two pieces of logic in the koaflow-test helpers.

**`TimeFlow`** (lib/timeFlow.js) is a terminal timeline of asynchronous calls. It has `size` lanes, each
`length` characters wide, and keeps an in-flight counter per lane. `print` writes one line: a
`[total,delta]` timestamp block, then one cell per lane. Lane `pos` shows a label. The other lanes are
blank, and a lane with calls in flight is flanked by a highlighted marker. `trace` wraps a method. Each
call counts itself on its lane and prints an entry line. When the call settles it prints an exit line
with its duration, blue on success and red on failure, and uncounts itself. The result or error is
passed through unchanged.

**`compare`** (lib/compare.js) matches a JSON-like data tree against a template tree:

- a function template must return a truthy value for the data;
- a primitive template must be `===` to the data;
- array and object templates recurse index by index and key by key;
- an object template whose `length` is a valid array length (an integer from 0 to 2^53 − 1) is
  walked by `lodash.forEach` as an array-like: indices 0 to `length` − 1 are compared and its keys
  are not.

It stops at the first mismatch and reports its path.

Files:

- `options.dfy` (module `Options`): the `Option` datatype, for arguments that may be absent.
- `lodash.dfy` (module `Lodash`): the lodash semantics the source relies on. `truncate` keeps `s` when
  it fits. Otherwise it returns the omission alone when `length - |omission| < 1`, and
  `s[..length-|omission|] + omission` when not. `pad` puts the floor half of the padding on the left.
  `padEnd` and `repeat` are as usual.
- `text.dfy` (module `Text`): the decimal text of integers (`${n}`), with a round-trip lemma, and
  `Array.prototype.join`, with layout lemmas.
- `timeflow.dfy` (module `TimeFlow`): the cell and row functions, the timestamp block, the plain text of
  a line, the lane-counter event model, and `class TimeFlow`.
- `compare.dfy` (module `Compare`): the `Value` and `Template` datatypes, and `Check` with its
  helpers `CheckItems`, `CheckObject`, `CheckEntries` and `CheckIndexed`. Also `Compare` (the
  one-argument default), `Dump` and the lemmas.

Modelling choices:

- Every `Date.now()` reading is an explicit parameter. A traced call reads the clock four times: for
  the entry line, at the start, at settlement and for the exit line.
- The console is the `output: seq<Line>` field. A `Line` keeps the two numbers of its timestamp
  block and one `Cell` per lane. A cell keeps an abstract flank (`Space` or `Marker`), the label
  and suffix it was asked to show, and an abstract style (`Plain`, `Blue` or `Red`). The
  characters are given by pure functions: `StampText` for the block, `CellText` for a cell
  (`CellContent` between two flank characters) and `LineText` for a whole line, all without the
  colour codes.
- `_countArray` is an `array<int>` updated in place. `print` builds the blank row of `_array`
  as a sequence (the source builds it with `map`) and overwrites cell `pos`.
- The wrapper that `trace` installs is modelled two ways. `Enter` and `Exit` are two events that
  concurrent calls may interleave freely. `Traced` is one call run with nothing in between. The
  counter effect of any interleaving is given by `Replay` over `Entered`/`Exited` events.

Two behaviours of the code are easy to miss:

- The label is padded with `length` spaces before truncation (lib/timeFlow.js:30-31). So a non-empty
  label always gets its suffix, right-aligned in the cell, and not only when the label overflows.
  An empty label drops the suffix. A suffix of at least `length` characters replaces the label.
- The delta of a line is the time since the previous line of any kind, heartbeat lines included.
  `start` runs the first pass of the heartbeat loop before it returns, so the first line after
  `start` is a line of dots with delta 0, and the first `print` measures from it. Because
  `_lastTimestamp || now` treats a falsy value as unset, the delta is also 0 when the previous
  reading was 0 (`Delta`).

## Model

| member | source | states |
|---|---|---|
| TimeFlow.TimeFlow.constructor | lib/timeFlow.js:5-14 | `size`, `length` and `interval` default to 13, 16 and 1000. The counter array has exactly `size` entries, all zero. The instrument is stopped, with no timestamps and no output. |
| TimeFlow.TimeFlow.Start | lib/timeFlow.js:99-104 | After `start` the instrument runs and `startedAt` is `now`. The first heartbeat pass runs before `start` returns: exactly one line of dots is appended, with total = `beatAt` − `now` and delta 0, and `beatAt` becomes the last line's time. |
| TimeFlow.TimeFlow.Heartbeat | lib/timeFlow.js:49-53 | One pass of the heartbeat loop. Stopped, it changes nothing. Running, it appends exactly one line, with total = now − start, the delta since the previous line, and every lane showing `length` dots with the current counters. The last line's time becomes `now`. |
| TimeFlow.HeartbeatCells | lib/timeFlow.js:51 | In a heartbeat row every lane is uncoloured, its text is `' '` + `length` dots + `' '`, and it is flanked by the marker exactly when its counter is non-zero. |
| TimeFlow.TimeFlow.Stop | lib/timeFlow.js:106-108 | After `stop` the instrument is stopped and nothing else changes. |
| TimeFlow.TimeFlow.Timestamp | lib/timeFlow.js:16-22 | Returns total = now − start and the delta since the previous line (the two numbers `StampText` formats). The last line's time becomes `now`. |
| TimeFlow.Delta | lib/timeFlow.js:19 | The delta is 0 when there is no previous reading and also when the previous reading is 0 (falsy). Otherwise it is now − last. |
| TimeFlow.StampText | lib/timeFlow.js:21 | The block is 3 + the two field widths long, where each field is at least 8 wide. It starts with `[` and ends with `]`. |
| TimeFlow.StampFields | lib/timeFlow.js:21 | After `[` comes the total's text centred by `pad` to 8 columns, then `,`, then the delta's text centred to 8 columns, then `]`. `PadCentres` gives the centring. |
| TimeFlow.StampWidth | lib/timeFlow.js:21 | Totals and deltas below 10^8 ms keep the block exactly 19 characters wide. |
| TimeFlow.CellOf | lib/timeFlow.js:28 | A cell is flanked by the marker exactly when its lane's counter is non-zero, and keeps the label, suffix and colour it was given. |
| TimeFlow.CellText | lib/timeFlow.js:33 | A cell's text is one flank character (a space, before colouring), the content, and another flank character: 2 characters longer than the content. |
| TimeFlow.Row | lib/timeFlow.js:45-47 | `_array(str)` has exactly one cell per lane. Its cells are described by `PrintRowCells` and `HeartbeatCells`. |
| TimeFlow.PrintRow | lib/timeFlow.js:63-64 | The row that `print` draws has exactly one cell per lane. Its cells are described by `PrintRowCells`. |
| TimeFlow.LineOf | lib/timeFlow.js:65 | A line is the stamp, then `": "`, then the cell texts joined by `|`, then `" |"`, so it is 4 characters longer than the stamp and the joined cells. |
| TimeFlow.LineText | lib/timeFlow.js:65 | The text of a printed line starts with its `[total,delta]` block followed by `": "`, and ends with `" |"`. Its length is the block's, the joined cells' and 4. |
| TimeFlow.Label | lib/timeFlow.js:80 | A traced call's label is `name(...args)` when a `name` function is given, and the method's key otherwise. |
| TimeFlow.ExitStyle | lib/timeFlow.js:86-94 | The exit line is blue exactly when the call returned, and red exactly when it threw. |
| TimeFlow.CellContent | lib/timeFlow.js:30-32 | The content is `length` characters wide. The one exception is a non-empty label with a suffix longer than `length`, where it is the suffix's width. |
| TimeFlow.CellContentNoSuffix | lib/timeFlow.js:30-32 | With an empty suffix, a label of `length` characters or more is cut to its first `length`. A shorter one is right-padded with spaces. Either way the content is exactly `length` characters. |
| TimeFlow.CellContentWithSuffix | lib/timeFlow.js:31-32 | With a non-empty label and a suffix shorter than `length` but not empty, the content is the first `length` minus the suffix's length characters of label + spaces, followed by the suffix. |
| TimeFlow.CellContentEdges | lib/timeFlow.js:30-32 | A suffix of `length` characters or more replaces a non-empty label. An empty label shows `length` spaces and drops the suffix. |
| TimeFlow.BlankContent | lib/timeFlow.js:45-46 | A default blank cell (`' '`, no suffix) holds exactly `length` spaces. |
| TimeFlow.PrintRowCells | lib/timeFlow.js:63-64 | A printed row (`_array()` with cell `pos` replaced) has one cell per lane. Every lane other than `pos` is uncoloured and its text is `length` + 2 spaces. Lane `pos` shows the label with the suffix and the colour. Each lane's flank is the marker exactly when its counter is non-zero. |
| TimeFlow.PrintRowWidths | lib/timeFlow.js:27-33 | When the suffix is at most `length` characters, every cell text of a printed row is exactly `length` + 2 characters. |
| TimeFlow.PrintedCell | lib/timeFlow.js:63-64 | The text of lane k in a printed row is the label cell (`' '` + content + `' '`) at `pos` and `length` + 2 spaces elsewhere. |
| TimeFlow.LineLayout | lib/timeFlow.js:65 | A line is the stamp, `": "`, the cell texts joined by `|`, and `" |"`. With every cell text `w` wide, the line is the stamp's length + size·(w+1) + 3 characters, and cell k occupies the `w` columns from stamp's length + 2 + k·(w+1) (`Text.StrideIsProduct` turns `Stride` into the product). |
| TimeFlow.PrintedLane | lib/timeFlow.js:61-65 | When the suffix fits, lane k of a printed line occupies the `length` + 2 columns from stamp's length + 2 + k·(`length` + 3). It holds the label cell for k = pos and spaces otherwise. |
| Lodash.PadCentres | lib/timeFlow.js:21 | Each number of the timestamp block is centred in its 8 columns: the floor half of the padding before it, the rest after it. |
| Lodash.PadEndFills | lib/timeFlow.js:32 | `padEnd` keeps the string and fills the rest of the cell with spaces. |
| Text.NatTextRoundTrip | lib/timeFlow.js:21 | The decimal text of a number in the block reads back as that number. |
| Text.NatTextInjective | lib/timeFlow.js:21 | Different natural numbers have different decimal texts. Negative numbers (`IntText`) and the padding are not covered. |
| TimeFlow.TimeFlow.Print | lib/timeFlow.js:61-67 | While stopped, `print` changes nothing. While running it appends exactly one line: total = now − start, the delta since the previous line, and the `PrintRow` cells for the current counters. The last line's time becomes `now`. |
| TimeFlow.TimeFlow.Enter | lib/timeFlow.js:80-83 | Entering a traced call increments lane `pos` only (`Step` with `Entered`). Then it prints the entry line with no suffix and no colour, so that line already shows the lane as busy. |
| TimeFlow.TimeFlow.Exit | lib/timeFlow.js:86-95 | The exit line carries the duration as suffix, blue on success and red on failure. It is printed with the counters still holding the call. Then lane `pos` alone is decremented. The outcome is returned unchanged. |
| TimeFlow.TimeFlow.Traced | lib/timeFlow.js:76-96 | The label is `name(...args)` when `name` is given, else `key`. The result or error of the call is returned unchanged. The counters end as they started. Running, it prints exactly two lines, entry then exit, both drawn with lane `pos` counted. The exit line's delta is measured from the entry line, and the exit line's time becomes the last line's time. Stopped, it prints nothing and the last line's time is unchanged. |
| TimeFlow.Step | lib/timeFlow.js:82 | An event moves its own lane's counter by +1 (enter) or −1 (exit) and leaves every other lane unchanged. |
| TimeFlow.ReplayNet | lib/timeFlow.js:82-93 | For any interleaving of events, a lane's counter ends at its start value plus entries minus exits on that lane. |
| TimeFlow.BalancedRestores | lib/timeFlow.js:82-93 | N entries and N exits on a lane, in any order, restore its counter. |
| TimeFlow.NeverBelowStart | lib/timeFlow.js:82-93 | While no exit precedes its entry, the counter never drops below its start value. |
| TimeFlow.TracedLaneHighlighted | lib/timeFlow.js:28 | In a line printed during a traced call, the call's lane is flanked by the marker. |
| Compare.Truthy | lib/compare.js:4-11 | Arrays and objects are truthy. A primitive is truthy exactly when it is not `undefined`, `null`, `false`, 0 or the empty string. |
| Compare.PathShapes | lib/compare.js:17-21 | An item's path is the parent path, `[`, the index's decimal text and `]`. An entry's path is the parent path, `.` and the key. Both extend the parent path. |
| Compare.Get | lib/compare.js:17-21 | `lodash.get` reads an object's own key and an array's element at an index. A missing object key, an array index past the end, and any property of a non-string primitive read as `undefined`. An index on an object reads the key spelled by the index's decimal text. `length` on an array or string is its length. An index on a string is that character. |
| Compare.Check | lib/compare.js:3-29 | A function template passes iff it accepts the data, and fails at the current path with the data. A primitive template passes iff it equals the data, and fails at the current path with the expected and actual values. An object template goes to `CheckObject`. Every failure path extends the current path. |
| Compare.ArrayLength | lib/compare.js:20 | An object template is array-like for `lodash.forEach` exactly when one of its entries is `length` with an integer value from 0 to 2^53 − 1. The length returned is that entry's number (the first such entry), so it is at most 2^53 − 1. |
| Compare.KeyIndex | lib/compare.js:20 | The index found holds an entry with that key. When none is found, no entry has that key. |
| Compare.CheckObject | lib/compare.js:19-22 | A failure inside an object template, walked by index or key by key, is reported at a path that extends the template's path. |
| Compare.CheckIndexed | lib/compare.js:20-21 | A failure inside an object template walked as an array-like is reported at a path that extends the template's path. |
| Compare.IndexedPassAll | lib/compare.js:20-21 | An array-like walk over indices from..n−1 passes iff each index i passes: `template[i]` (undefined when the template has no key i) against `data[i]` at path `path.i`. A failing walk's result is the failure of one of those indices. |
| Compare.IndexedStep | lib/compare.js:20-21 | The array-like walk checks index `from` first and goes on to the next index only when it passes. |
| Compare.FirstFailingIndex | lib/compare.js:20-26 | A failing array-like walk reports its first failing index: all earlier indices passed, and the result is that index's failure. |
| Compare.ArrayLikePassAll | lib/compare.js:19-22 | An object template with a valid `length` n passes iff each index below n passes. Its `length` entry and its other keys are not compared. |
| Compare.LengthEntryNotCompared | lib/compare.js:20 | `compare([1, 2], {length: 2})` fails at `.0` expecting `undefined`, although the data's `length` is 2. Walked key by key, the same template passes. |
| Compare.ArrayLikeNotDroppable | lib/compare.js:20 | `{length: 0, a: 5}` accepts `{}`, but dropping its `length` entry gives `{a: 5}`, which rejects `{}` at `.a`. |
| Compare.CheckItems | lib/compare.js:15-18 | A failure inside an array template is reported at a path that extends the template's path. |
| Compare.CheckEntries | lib/compare.js:19-22 | A failure inside an object template walked key by key is reported at a path that extends the template's path. |
| Compare.Compare | lib/compare.js:3-8 | With no template, the identity function is the template, so the data passes iff it is truthy and otherwise fails at the empty path. |
| Compare.Dump | lib/compare.js:31-34 | `compare.dump(v)` with the default `{}` template never fails. |
| Compare.ItemsPassAll | lib/compare.js:15-18 | An array template passes iff every item i passes against `data[i]` at path `path[i]`. |
| Compare.EntriesPassAll | lib/compare.js:19-22 | An object template walked key by key (no valid `length`, so `CheckObject` uses `CheckEntries`) passes iff every entry k passes against `data[k]` at path `path.k`. |
| Compare.ItemsAppend | lib/compare.js:15-18 | Items are checked in increasing index order. Items after a failing one are not reached and do not change the result. |
| Compare.FirstFailingItem | lib/compare.js:15-18 | A failing array template reports the first failing index: all earlier indices passed, and the result is that item's failure. |
| Compare.EntriesAppend | lib/compare.js:19-22 | In a key-by-key walk, entries are checked in iteration order. Entries after a failing one are not reached and do not change the result. |
| Compare.FirstFailingEntry | lib/compare.js:19-22 | A key-by-key walk that fails reports its first failing entry: all earlier entries passed, and the result is that entry's failure. |
| Compare.ExtraElementsIgnored | lib/compare.js:15-18 | Data elements beyond the template's length are never examined. |
| Compare.OnlyTemplateKeysRead | lib/compare.js:19-22 | In a key-by-key walk, two data objects that agree on the template's keys compare alike. |
| Compare.ExtraKeysIgnored | lib/compare.js:19-22 | For an object template without a valid `length`, keys present only in the data are ignored. |
| Compare.MissingKeyIsUndefined | lib/compare.js:21 | For a one-entry object template whose entry is not a valid `length`, a key missing from the data is compared against `undefined` at `path.key`. |
| Compare.EmptyTemplatesAccept | lib/compare.js:15-22 | An empty array or object template accepts any data. |
| Compare.TrailingItemDropped | lib/compare.js:15-18 | Removing the last item of a passing array template leaves it passing. |
| Compare.EntriesDroppable | lib/compare.js:19-22 | In a key-by-key walk, removing any entry of a passing template leaves it passing. |
| Compare.EntryDropped | lib/compare.js:19-22 | Removing any entry of a passing object template without a valid `length` leaves it passing. |

## Left out

- The timer of the heartbeat loop `_drawLinesLoop` (lib/timeFlow.js:53) is not modelled. `Heartbeat`
  is one pass of the loop, and `Start` runs the first pass. Later passes run every `interval` ms
  while the instrument runs. Their scheduling, and their interleaving with traced calls, is left to
  whoever calls `Heartbeat`, so `interval` is only stored. The loop's `catch` is not modelled,
  because a pass cannot fail in the model.
- Row and PrintRow: their own contracts state only the length of the row. Their cells are
  described by `PrintRowCells`, `PrintedCell` and `PrintRowWidths`.
- `Date.now()` and `console.log` are not modelled. Clock readings are parameters and printed lines go
  to the `output` sequence.
- The ANSI escape codes of `colors/safe` are not modelled. Flanks and colours are abstract tags, and
  `LineText` leaves them out.
- Unicode-aware sizing in lodash `truncate` and `pad` is not modelled: one `char` is one column.
- `IntText` does not model JavaScript's exponent notation for numbers of 10^21 and more.
- Replacing `obj[key]` and `bind` in `trace` are not modelled. `Traced`, `Enter` and `Exit` model the
  installed wrapper's body.
- `Traced` does not model other events between entry and exit. Interleaved calls are modelled
  through `Enter`, `Exit` and `Replay`.
- A `name` function is assumed to return a string, so `${str}` of other values is not modelled.
- A `pos` outside `0 <= pos < size` is excluded by precondition. In JavaScript, `trace` would turn
  that lane's counter into `NaN` (`undefined + 1`). `print` changes no counter. With `pos >= size`,
  `array[pos] = …` appends the label cell at the end of the line after empty cells for any gap. With
  a negative `pos` it sets a property that `join` ignores, so no label is drawn.
- The text of `compare`'s error messages is not modelled (`JSON.stringify` of the data, and function
  source text). A failure is a path plus a `Mismatch`.
- The error object that the nested calls share is not modelled: only its final message matters.
- JavaScript truthiness of `NaN`, floating-point numbers and `===` on `NaN` are not modelled. A
  predicate's result is a `bool`, and a predicate that throws is not modelled.
- Some `lodash.get` behaviour is not modelled: key strings that contain `.` or `[` (read as
  paths), inherited properties, and numeric-string keys on arrays and strings. `Get` models own
  properties, array and string indices, `length`, and index lookups on objects by their decimal key.
- Template objects other than plain objects and arrays (dates, regular expressions) are not modelled.
- The keys of an object template are not required to be distinct (`DistinctKeys` states it, and
  JavaScript objects always satisfy it). With repeated keys, `ArrayLength` and `KeyIndex` use the
  first matching entry.
- ExtraKeysIgnored, MissingKeyIsUndefined, EntryDropped: they hold only for object templates
  without a valid `length`. Templates walked as array-likes are covered by `ArrayLikePassAll`
  instead (see Findings).
- lib/extend.js is not part of this model. It is an HTTP test wrapper over libraries whose code is
  not available.

## Findings

| source | as written | input that shows it | evidently intended | confidence | as-written member | corrected member |
|---|---|---|---|---|---|---|
| lib/compare.js:19-22 | `lodash.forEach` walks an object template whose `length` is an integer from 0 to 2^53 − 1 as an array-like. It compares indices 0 to `length` − 1 against `undefined` or the template's numeric keys, and never compares `length` or any other key. | `compare([1, 2], {length: 2})` throws at `.0` (expected `undefined`, got 1), although `[1, 2].length === 2`. | Every own key of an object template is compared against the data's property of that name, so `{length: 2}` checks the data's length. | medium, not executed | Compare.LengthEntryNotCompared | Compare.EntriesDroppable |

`Check` follows the code as written: `CheckObject` walks such a template by index (`CheckIndexed`,
with `ArrayLikePassAll` and `ArrayLikeNotDroppable`). The key-by-key walk `CheckEntries` is the
intended behaviour. Its lemmas `EntriesPassAll`, `OnlyTemplateKeysRead` and `EntriesDroppable` state
what a template of keys promises. `ExtraKeysIgnored`, `MissingKeyIsUndefined` and `EntryDropped`
carry them over to `Check` for templates without a valid `length`.
