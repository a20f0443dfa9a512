# fan-bd loot tracker, modelled in Dafny

fan-bd watches the Black Desert game screen and keeps a ledger of the loot
the player picks up. Three parts of it are modelled here.

- The capture core (`src/core/core.rs`). A producer numbers the captured
  frames 0, 1, 2, ... and has each one recognised by an OCR service. The
  answers come back in any order. A consumer hands them to the loot tracker
  strictly in index order and holds early arrivals back in a buffer.
- The OCR client (`src/ocr/ocr.rs`). It cleans every recognised text down to
  printable ASCII and whitespace. It turns every box, given by its four
  edges, into a rectangle given by its corner and size.
- The loot engine (`src/engine/blackdesert.rs`). It covers:
  - the two line grammars: the chat-log line
    `You have obtained [Name]xN. (HH:MM)` and the drop-log line `Name x N`;
  - the `diff` that aligns a frame of the loot window with the previous
    frame;
  - fuzzy matching of parsed names against the ledger;
  - accumulation of new events into the ledger;
  - calibration of the capture region.

Modules, one concept each:

| file | module | models |
|---|---|---|
| `wrappers.dfy` | `Wrappers` | `Option`, `Result`, filtering a sequence |
| `text.dfy` | `Text` | character classes, `trim`, `normalize_spaces`, `to_title_case` |
| `loot.dfy` | `Loot` | `LootData`, `Silver`, `is_ocr_misread`, `extract_number`, `parse_loot_drop_logs`, `parse_loot`, `multiple_parse_loot` |
| `loot_examples.dfy` | `LootExamples` | the expectations of the commented-out parser tests of `blackdesert.rs` |
| `diff.dfy` | `Diff` | `LootDatas::diff` |
| `resolve.dfy` | `Resolve` | the name resolution inside `insert` |
| `calibration.dfy` | `Calibration` | `analyze` and the chat-log branch of `screen_config` |
| `ledger.dfy` | `Ledger` | `BlackDesertLootTracker`: `new`, `reset`, `insert`, `find_loot_metadata`, `analyze` |
| `ocr.dfy` | `Ocr` | `do_ocr` after the request, `OCRError`, `From<OcrOutputData>` |
| `reorder.dfy` | `Reorder` | `get_data_channel`, `run_capture_loop`, `process_data` |

Form of the model:

- **Loops.** Code that loops over mutable locals is a `method` with loop
  invariants. Each such method is proved equal to a specification function,
  and the properties are lemmas about that function. Examples are
  `normalize_spaces`, `extract_number`, the scans of `parse_loot`, `diff`,
  the resolution loop, the recording loop of `insert`, the calibration loop
  and the consumer loop.
- **Classes.** The tracker and the consumer are classes with `modifies`
  clauses:
  - `Ledger.LootTracker` has the table, the history, the previous frame and
    the mode.
  - `Reorder.CaptureLoop` has the expected index and the buffer.
- **The frames log.** The tracker keeps a ghost log of the frames handed to
  `insert`. The consumer's contracts say exactly which frames it hands over,
  and in what order.

Points where the code is easy to misread; the model follows the code:

- The affix test of name resolution (`starts_with` / `ends_with` on the
  cleaned names) is case-sensitive. Only the similarity score compares
  lower-cased names.
- In a chat-log line, the amount is every ASCII digit between the `]` and
  the first `(`, read as one number, rather than one run of digits. A line
  without `(` takes every digit to the end.
- The time scan restarts one character before the `(`. The hour is the
  digits up to the first `:`, and the minute the digits between that `:` and
  the next one.
- The consumer buffers every index other than the expected one, including
  lower ones. With distinct indices, a lower one cannot occur (lemma
  `Reorder.BufferTracked`).
- In drop-log mode, the separator is the rightmost `x` or `X` after
  position 0. The scan never looks at position 0.

## Model

| member | source | states |
|---|---|---|
| Loot.SilverAddLaws | src/engine/blackdesert.rs:224-235 | `Silver` addition (and `+=`) is commutative and associative with unit `Silver(0)`, and 1 + 2 gives 3 as the `add_silver` test expects |
| Loot.CalculateAdditive | src/engine/blackdesert.rs:35-40 | `calculate` is amount times price: it agrees with `Silver * Silver` on `Silver(amount)`, and adding `n` to an entry's amount adds `n` times the price to its worth |
| Loot.MisreadIsSmaller | src/engine/blackdesert.rs:934-936 | when the decimal string of `actual` is a proper prefix of that of `expected`, `actual < expected` |
| Loot.MatchAmount | src/engine/blackdesert.rs:85-89 | a new event that matches an old one has an amount no larger than the old one: equal, or its decimal string is a proper prefix of the old one's |
| Loot.FirstNumber | src/engine/blackdesert.rs:938-953 | the value of the first run of ASCII digits is `None` exactly when the text holds no ASCII digit |
| Loot.ExtractNumber | src/engine/blackdesert.rs:938-953 | `extract_number` returns `FirstNumber(s)` |
| Loot.ExtractNumberRoundTrip | src/engine/blackdesert.rs:938-953 | the decimal string of `n`, between text that does not continue its digit run, reads back as `Some(n)` |
| Loot.ScanForX | src/engine/blackdesert.rs:359-368 | the right-to-left scan stops at the rightmost `x`/`X` past position 0, or at 0 |
| Loot.ParseDropLog | src/engine/blackdesert.rs:354-390 | a drop-log parse has amount at least 1, id 0 and price 0 |
| Loot.ParseLootDropLogs | src/engine/blackdesert.rs:354-390 | `parse_loot_drop_logs` returns `ParseDropLog(data)` |
| Loot.DropLogSplit | src/engine/blackdesert.rs:375-389 | a line split at its rightmost separator with a positive first number on the right parses to the title-cased, space-normalised left part with that amount |
| Loot.DropLogRejects | src/engine/blackdesert.rs:369-384 | a non-empty drop-log line is rejected exactly when there is no separator past position 0, no digit after it, or the amount is 0 |
| Loot.ChatLine | src/engine/blackdesert.rs:403-479 | a normalised chat-log line parses exactly when it starts with "You have obtained" and has a non-empty bracketed name; the parse has amount at least 1, id 0 and price 0 |
| Loot.ScanName | src/engine/blackdesert.rs:407-425 | the name loop copies what lies between the first `[` and the next `]`, and leaves the cursor just past that `]` |
| Loot.ScanAmount | src/engine/blackdesert.rs:431-445 | the amount loop reads every digit up to the first `(`, and steps the cursor back one character before it |
| Loot.ScanTime | src/engine/blackdesert.rs:450-471 | the time loop reads the digits before the first `:` as the hour and those between it and the next `:` as the minute |
| Loot.ScanChatLine | src/engine/blackdesert.rs:403-479 | the chat-log branch after normalisation returns `ChatLine(d)` |
| Loot.ParseLoot | src/engine/blackdesert.rs:394-480 | `parse_loot` is the drop-log parse in drop-log mode, and `ChatLine` of the space-normalised line in chat-log mode |
| Loot.ChatLineParts | src/engine/blackdesert.rs:403-479 | a line `You have obtained [name]amount(hour:minute)` parses to the title-cased name, the digits of the amount (1 when 0), and hour and minute modulo 256 |
| Loot.ParseChatLogParts | src/engine/blackdesert.rs:394-480 | the same for an already single-spaced line as `parse_loot` receives it |
| Loot.ParseChatLogDoubleSpace | src/engine/blackdesert.rs:401 | a space inserted after a space inside a line does not change its parse |
| Loot.ChatLineWithoutTime | src/engine/blackdesert.rs:450-471 | a line with no `(` after the name has hour and minute 0 |
| Loot.ParseChatLogWithoutTime | src/engine/blackdesert.rs:394-480 | the same for an already single-spaced line as `parse_loot` receives it |
| Loot.MultipleParseLoot | src/engine/blackdesert.rs:481-493 | `multiple_parse_loot` returns `ParseAll(mode, data)`, the parses of the lines that parse, in order |
| Loot.ParseAllProperties | src/engine/blackdesert.rs:481-493 | at most one event per line, each the parse of some line; batches parse piece by piece; nothing comes out exactly when no line parses |
| Text.Trim | src/engine/blackdesert.rs:768 | the trimmed text has no whitespace at either end |
| Text.TrimAt | src/engine/blackdesert.rs:768 | `trim` removes exactly the leading and trailing whitespace |
| Text.TrimKeepsContent | src/engine/blackdesert.rs:768 | `trim` keeps every non-whitespace character, in order |
| Text.NormalizeSpaces | src/engine/blackdesert.rs:764-781 | `normalize_spaces` returns `Normalized(input)`: trimmed, with each whitespace run collapsed to one space |
| Text.NormalizedShape | src/engine/blackdesert.rs:764-781 | the output has no whitespace at either end, only plain spaces, never two in a row, and the input's non-whitespace characters in order |
| Text.NormalizedIdempotent | src/engine/blackdesert.rs:764-781 | single-spaced text is left alone, so normalising twice is normalising once |
| Text.NormalizedAt | src/engine/blackdesert.rs:764-781 | text that is single-spaced once trimmed normalises to that trimmed text |
| Text.NormalizedDropSpace | src/engine/blackdesert.rs:764-781 | a doubled space inside a line normalises like a single one |
| Text.Capitalize | src/engine/blackdesert.rs:900-908 | the word keeps its length, its first character is upper-cased and the rest lower-cased |
| Text.TitleCaseIgnoresCase | src/engine/blackdesert.rs:897-912 | `to_title_case` gives the same result whatever the case of its input |
| Text.TitleCaseOfWord | src/engine/blackdesert.rs:897-912 | a single word title-cases to its capitalisation |
| Text.TitleCaseTwoWords | src/engine/blackdesert.rs:897-912 | two words joined by one space title-case to their capitalisations joined by one space |
| Text.TitleCaseOneWord | src/engine/blackdesert.rs:838-843 | "title" gives "Title", as the commented-out test expects |
| Text.TitleCaseThreeWords | src/engine/blackdesert.rs:838-843 | "title Title title" gives "Title Title Title", as the commented-out test expects |
| Diff.Unseen | src/engine/blackdesert.rs:56-149 | the new part is a suffix of the current frame: empty for an empty frame, the whole frame when there is no previous one |
| Diff.Diff | src/engine/blackdesert.rs:56-149 | `diff` returns `Unseen(prev, curr)` |
| Diff.DiffScroll | src/engine/blackdesert.rs:56-149 | when the window scrolled (the first `j` old events left it, the rest match the top of the new frame), the new part is exactly the events below them |
| Diff.DiffSelf | src/engine/blackdesert.rs:56-149 | an unchanged frame has nothing new |
| Diff.DiffAppend | src/engine/blackdesert.rs:56-149 | events appended below an unchanged frame are exactly the new part |
| Diff.DiffRollback | src/engine/blackdesert.rs:104-122 | once the alignment breaks off and never resumes, the rollback point applies: after [A, B], the frame [A, C] counts as new from A |
| Diff.DiffTestLoot | src/engine/blackdesert.rs:159-199 | the `test_loot` frames yield [Silver 92, Swamp Leaves 1], which starts with Silver 92 |
| Resolve.FirstAffix | src/engine/blackdesert.rs:524-529 | the first key whose cleaned form starts or ends with the cleaned name |
| Resolve.BestMatch | src/engine/blackdesert.rs:530-537 | -1 exactly when no score exceeds 0.6; otherwise a key scoring above 0.6, no key scoring higher, and no earlier key scoring as high |
| Resolve.ResolveOne | src/engine/blackdesert.rs:513-538 | the resolution loop for one event returns `ResolveName` |
| Resolve.ResolveNames | src/engine/blackdesert.rs:509-540 | the loop over all events replaces each name by `ResolveName` of it |
| Resolve.ResolveKeyOrSelf | src/engine/blackdesert.rs:509-540 | a resolved name is the parsed name or a key; with no keys it is the parsed name |
| Resolve.ResolveByAffix | src/engine/blackdesert.rs:524-529 | the first key with the affix property wins, whatever the scores of the keys before it |
| Resolve.ResolveBySimilarity | src/engine/blackdesert.rs:530-537 | without an affix match, the name goes to the first highest-scoring key when its score exceeds 0.6, and stays itself when no score does |
| Ledger.UnitPrice | src/engine/blackdesert.rs:621-625 | the price is one of the two sell prices, the market one whenever it is positive, and 0 exactly when both are 0 |
| Ledger.LootTracker.constructor | src/engine/blackdesert.rs:330-340 | a new tracker has an empty table, history and previous frame, in chat-log mode |
| Ledger.LootTracker.Reset | src/engine/blackdesert.rs:348-353 | `reset` empties the table, the history and the previous frame, and keeps the mode |
| Ledger.LootTracker.Insert | src/engine/blackdesert.rs:495-591 | the new state and the returned count are `InsertStep` of the old state; the frame is logged |
| Ledger.LootTracker.Record | src/engine/blackdesert.rs:566-590 | the history grows by the new events, and the table becomes `Accumulate` of them |
| Ledger.LootTracker.Analyze | src/engine/blackdesert.rs:634-684 | `analyze` returns the calibrated region in the tracker's mode, with the default (1000, 400, 920, 640) |
| Ledger.AddEventEntry | src/engine/blackdesert.rs:568-589 | one event adds its amount to an existing entry; an unknown name is entered exactly when the catalogue knows it, with the catalogue's id and price |
| Ledger.AccumulateEntry | src/engine/blackdesert.rs:566-590 | an existing entry gains the total amount of the events with its name; a new name appears exactly when some event has it and the catalogue knows it, with the total amount, the catalogue's id and price and its first event's time |
| Ledger.AccumulateKeys | src/engine/blackdesert.rs:566-590 | accumulation removes no entry and adds only names of events |
| Ledger.AccumulateKeyedByName | src/engine/blackdesert.rs:566-590 | every entry stays filed under its own name |
| Ledger.AccumulateWorth | src/engine/blackdesert.rs:566-590 | after recording, an existing entry's `calculate` grows by the recorded amount times its price, and a new entry is worth its total amount times the catalogue's unit price |
| Ledger.AmountForConcat | src/engine/blackdesert.rs:566-590 | amounts add up over consecutive runs of events |
| Ledger.NewEventsIsUnseen | src/engine/blackdesert.rs:541-563 | both modes select the new events as `diff` against the previous frame (everything is new when there is none) |
| Ledger.InsertOutcome | src/engine/blackdesert.rs:495-591 | `insert` returns the number of new events modulo 2^16, and the history grows by exactly those events, a suffix of the resolved frame, which becomes the previous frame. An empty parse or nothing new returns 0 and changes nothing except, on an empty parse in drop-log mode, the previous frame |
| Ledger.InsertSameFrame | src/engine/blackdesert.rs:541-563 | a frame identical to the previous one adds nothing and returns 0 |
| Ledger.InsertTable | src/engine/blackdesert.rs:495-591 | no entry is removed or changed except in amount; each entry gains exactly the amounts of the new events with its name; a new entry is a name the catalogue knows |
| Calibration.Detects | src/engine/blackdesert.rs:647-649 | the loop's test: the text parses in the mode |
| Calibration.CaptureEnvelope | src/engine/blackdesert.rs:645-673 | the calibration loop returns `Calibrated(mode, input, default)` |
| Calibration.ScreenConfigChatLog | src/engine/blackdesert.rs:725-754 | `screen_config` in chat-log mode returns the calibrated region, with default (0, 0, 0, 0) |
| Calibration.MatchedSound | src/engine/blackdesert.rs:647-669 | every matched box is the box of an input whose text parses |
| Calibration.MatchedComplete | src/engine/blackdesert.rs:647-669 | the box of every input whose text parses is matched |
| Calibration.MatchedEmpty | src/engine/blackdesert.rs:647-669 | nothing is matched exactly when no text parses |
| Calibration.CalibratedIsEnvelope | src/engine/blackdesert.rs:634-684 | the region covers every box whose text parses; each of its edges is an edge of such a box; every rectangle covering those boxes covers it; with nothing parsed it is the default |
| Ocr.Sanitize | src/ocr/ocr.rs:97-102 | the cleaned text keeps exactly the characters that are ASCII graphic or ASCII whitespace |
| Ocr.SanitizeIdentity | src/ocr/ocr.rs:97-102 | cleaning leaves a text alone exactly when it is already clean |
| Ocr.SanitizeIdempotent | src/ocr/ocr.rs:97-102 | cleaning twice is cleaning once |
| Ocr.SanitizeConcat | src/ocr/ocr.rs:97-102 | cleaning works piece by piece and keeps the order |
| Ocr.WrappingSub | src/ocr/ocr.rs:105-110 | u32 subtraction: exact without underflow, plus 2^32 on underflow |
| Ocr.ToRect | src/ocr/ocr.rs:105-110 | the corner is (left, top); for a well-formed box, the right and bottom edges are kept |
| Ocr.ConvertAll | src/ocr/ocr.rs:95-112 | one output per result, with cleaned text and converted box, in order |
| Ocr.DoOcr | src/ocr/ocr.rs:65-114 | a failed request or an undecodable answer is passed on unchanged; otherwise every result is converted |
| Ocr.CaptureInputOfConvert | src/ocr/ocr.rs:38-45 | what the calibration receives for a recognised line is its cleaned text and, for a well-formed box, a rectangle with the box's corner and its right and bottom edges |
| Ocr.ConvertProperties | src/ocr/ocr.rs:95-112 | a converted text is clean, and a well-formed box's rectangle spans exactly that box |
| Reorder.GetDataChannel | src/core/core.rs:239-325 | frame `i` is sent as message `i`, carrying the OCR output or nothing when OCR failed; the first capture error ends the loop and is reported; the indices sent are 0 .. n - 1, once each |
| Reorder.NumberedIsArrivalOrder | src/core/core.rs:254-314 | messages numbered 0 .. n - 1 by the producer carry each index below n exactly once, as the consumer needs to deliver them all |
| Reorder.DrainFacts | src/core/core.rs:131-139 | the drained run is the buffered messages from the expected index up to the first gap; what remains is the rest of the buffer, untouched |
| Reorder.ReceiveTracked | src/core/core.rs:121-139 | a fresh index is above the expected one or equal to it; buffering or delivering it keeps every lower index received and the buffer holding exactly the received ones from the expected index on |
| Reorder.BufferTracked | src/core/core.rs:121-125 | with distinct indices, a buffered index is above the expected one |
| Reorder.TrackedComplete | src/core/core.rs:117-139 | once the indices 0 .. n - 1 have all arrived, the consumer expects n and the buffer is empty |
| Reorder.ConsistentStep | src/core/core.rs:121-139 | one arrival keeps every delivered and buffered message one that was received, and keeps the consumer tracked |
| Reorder.ReplayConcat | src/core/core.rs:121-139 | handing the tracker two runs of messages one after the other is handing it their concatenation |
| Reorder.ReplayHistory | src/core/core.rs:158-182 | replaying `process_data` over messages never shrinks the history, and messages that all carry no OCR output leave the tracker unchanged |
| Reorder.CaptureLoop.constructor | src/core/core.rs:117-118 | the consumer starts expecting index 0 with an empty buffer; its step `handle` is `process_data` on the tracker's own mode and catalogue |
| Reorder.CaptureLoop.ProcessData | src/core/core.rs:158-182 | a failed frame leaves the tracker alone; otherwise its texts go through `insert` with the table's key order |
| Reorder.CaptureLoop.Receive | src/core/core.rs:121-139 | another index is buffered and nothing is delivered; the expected index is delivered, then every buffered successor without a gap; the tracker gets the frames of the delivered messages, in order, and its state is `process_data` replayed over exactly those messages (unchanged when only buffering) |
| Reorder.CaptureLoop.Deliver | src/core/core.rs:128-130 | the tracker's new state is `process_data` of the expected message on the old one; the consumer expects the next index |
| Reorder.CaptureLoop.DrainBuffer | src/core/core.rs:131-139 | delivers exactly the buffered run from the expected index and leaves the rest; the tracker's frames and state are those of `process_data` replayed over that run |
| Reorder.CaptureLoop.RunCaptureLoop | src/core/core.rs:104-156 | in any arrival order, only received messages are delivered, in index order; when the arrivals are 0 .. n - 1 in any order, all n are delivered and the buffer ends empty; the tracker's state is `process_data` replayed over the delivered messages |
| LootExamples.DropLogSilver | src/engine/blackdesert.rs:919-932 | "Silverx100" gives Silver, 100 |
| LootExamples.DropLogLowerSilver | src/engine/blackdesert.rs:919-932 | "silver x100" gives Silver, 100 |
| LootExamples.DropLogSwampLeaves | src/engine/blackdesert.rs:919-932 | " Swamp Leaves x 1" gives Swamp Leaves, 1 |
| LootExamples.ChatLogBlackStone | src/engine/blackdesert.rs:787-795 | "You have obtained [Black Stone]x7. (16:08)" gives Black Stone, 7, at 16:08 |
| LootExamples.ChatLogMultipleSpaces | src/engine/blackdesert.rs:796-805 | the same line with a doubled space gives Black Stone, 7, at 16:08 |
| LootExamples.ChatLogNoTime | src/engine/blackdesert.rs:806-815 | "You have obtained  [Black Stone]x7." gives Black Stone, 7, at 00:00 |
| LootExamples.ChatLogNoAmount | src/engine/blackdesert.rs:816-836 | "You have obtained  [Black Stone].(16:08)" gives Black Stone, amount 1, at 16:08 |

## Left out

- The concurrency of the core is left out: the tokio tasks, `select!`, the
  mutexes, the one-second status tick, the watch sender and `CoreStatus`. The
  arrival order is a parameter of `RunCaptureLoop`. Stopping is the end of
  the frames (`GetDataChannel`) or of the arrivals (`RunCaptureLoop`).
- Capturing and encoding frames, the HTTP request to the OCR service, and
  JSON decoding are left out. `DoOcr` takes the answer as a `Result`
  parameter, and `GetDataChannel` takes the capture and OCR outcome of each
  frame as a parameter.
- The error payload of `OcrChannel` is dropped, and so are the payloads of
  the network and JSON errors. Nothing reads them.
- The item catalogue (`item_fetcher`) is a fixed lookup function of the
  tracker. Its network access and its `println!` on failure are left out.
- `strsim::normalized_damerau_levenshtein` is not defined. The similarity is
  a fixed function into [0, 1], and the contracts hold for every such
  function.
- The order in which a `HashMap` yields its keys is unspecified. `Insert`
  takes that order as a parameter. `CaptureLoop` takes it as a function of
  the table, required to list each key once.
- Floating point (`stream_fps`), `Silver::string` and `Display`, and
  `set_state`/`get_loot_data` are left out. So are the drop-log branch of
  `screen_config`, which depends on the screen size, and the commented-out
  code of `blackdesert.rs`. The expected values of its commented-out tests
  (`LootExamples`, `Text.TitleCaseOneWord`, `Text.TitleCaseThreeWords`) are
  still proved about the model.
- Case mapping and character classes are ASCII only: `to_uppercase`,
  `to_lowercase`, `is_alphanumeric`. `is_whitespace` uses the Unicode
  White_Space list. The Unicode decomposition in the drop-log separator test
  is reduced to `x` or `X`.
- Byte indexing is taken to be character indexing: `data.len()` in
  `parse_loot_drop_logs`, and the slicing in `parse_loot`. Multi-byte
  characters are left out.
- Loot.ExtractNumber: the u64 wrap-around of a number with more than 19
  digits is not modelled. The amount is unbounded.
- Calibration.CaptureEnvelope: u32 overflow of `x + width` and
  `y + height`, and the debug-build panic on it, are not modelled. Release
  builds wrap those sums; here they are unbounded.
- Ocr.ToRect: the debug-build panic on a box with `right < left` is not
  modelled. The subtraction wraps, as in a release build.
- Loot.SilverAddLaws: the u64 overflow of `Silver` arithmetic is not
  modelled.
- Loot.ChatLine: the u64 wrap-around of the chat-log amount
  (`amount * 10 + digit`, blackdesert.rs:444) is not modelled, and neither
  is the debug-build panic of the u32 hour and minute accumulators
  (blackdesert.rs:467-468). Both are unbounded here; only the final cast of
  hour and minute to u8 is modelled.
- Ledger.LootTracker.Record: the u64 overflow of `entry.amount += v.amount`
  (blackdesert.rs:571) is not modelled; amounts are unbounded.
- The `println!` of a rejected drop-log line (blackdesert.rs:370 and 382) is
  left out.
- Ledger.LootTracker.Record: writes the history and the table through local
  copies. The effect on the shared history behind the mutex is the same.
- The unused `chrono` timestamp in `diff` and its `println!` are left out.
- The `test_diff_input` test reads JSON fixture files and is not modelled.
