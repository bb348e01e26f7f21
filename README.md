# Traffic zone configuration, vehicle filter and event records — a Dafny model

This project models three sequential pieces of the Hailo traffic ("traffi") pipeline and proves
properties of them.

- **Zone configuration** (`core/hailo/plugins/overlay/config.cpp`).
  - `Config::parseLine` reads one line `p0x,p0y,p1x,p1y,r,g,b,testsbelow,show,showcar,label,prohibited`.
  - `Config::loadConfig` replaces the entry list all-or-nothing.
  - `Config::GetEntries` returns a copy of the list.
  - The string stream is modelled by the text it has not yet delivered, so each extraction is a
    function from the unread text to the value read plus the new unread text.
  - The field-by-field cursor of `parseLine` is the function `ParseHead`. `SplitProhibited` is a
    method with the source's `'|'` loop, proved equal to `Pieces`. `ParseLine` is the method that
    calls the two, and it is proved equal to the specification function `ParseEntry`.
  - `Config` is a class whose `Load` method has the source's loop over lines, with `has_error`
    and `new_entries`. It is proved equal to the specification function `LoadResult`. The file is
    passed in as `Option<seq<string>>`, where `None` means it could not be opened.
- **Vehicle filter and turn tracker** (`core/hailo/libs/postprocesses/traffi/traffi.cpp`).
  - `filter` is the method `Traffi.Filter` over a `Roi` object whose object list it changes in
    place. It is proved to leave the frame as described by `FilteredFrame`:
    - the non-detection objects stay, in their order;
    - then comes one relabelled copy per candidate unique id, in ascending id order, which is the
      iteration order of `std::map`.
  - The turn tracker is the class `TurnTracker`, holding the two maps and the list of the private
    state at `traffi.cpp:9-16`.
    - Its three methods do not compile as written. Each is modelled as its evident intent, and the
      comment on each method in `traffi.dfy` records which repair was made.
    - `common::iou_calc` is not part of this model; it is a function parameter.
- **Event records** (`core/hailo/libs/postprocesses/traffi/event_logger.cpp`).
  - The detection and crossing records are pure functions, with the timestamp passed in.
  - Parsers read the records back. Round-trip lemmas hold when the inserted side and origin hold
    no double quote, and an ambiguity lemma shows what happens when they may.
  - The value `curl` returns is a predicate over the request outcome.

Modules:
- `Wrappers`: `Option`.
- `Sequences`: associativity of concatenation, shared by the proofs.
- `Text`: digits, decimal rendering, and `std::getline` on a delimiter.
- `ZoneConfig` and `ZoneConfigProperties`: the configuration reader and its properties.
- `Hailo`: detections and a region of interest.
- `OrderedKeys`: ascending key order.
- `Traffi` and `TraffiProperties`: the filter, the tracker and their properties.
- `EventLog` and `EventLogProperties`: the records and their properties.

Facts about the code that the model follows:
- The IoU lookup matches only an IoU strictly greater than `0.75` (`traffi.cpp:45`). It has no
  containment test.
- `parseLine` accepts a vertical boundary line (`p0x == p1x`). The code computes no slopes, and
  the coordinates are kept as numerals.
- The flag fields accept any 32-bit integer, and any nonzero value means true
  (`config.cpp:113-126`).
- `curl` reports failure as a `false` result. It logs nothing beyond the printed HTTP code.

## Model

| member | source | states |
|---|---|---|
| `Text.IntToString` | core/hailo/libs/postprocesses/traffi/event_logger.cpp:44-45 | The text `operator<<` writes for an int is a nonempty run of digits, with an optional leading minus, and it reads back as the same value. It has no leading zero: a text starting with `0` is exactly `0`, and a minus is followed by a nonzero digit, so no `-0` and no `007`. |
| `Text.SplitAtFirst` | core/hailo/plugins/overlay/config.cpp:129 | `std::getline` with a delimiter: the token holds no delimiter. When the delimiter occurs, the text is token + delimiter + rest. Otherwise the token is the whole text and nothing is left. |
| `ZoneConfig.ExtractInt` | core/hailo/plugins/overlay/config.cpp:99-103 | `ss >> int` succeeds only with a value in the 32-bit `int` range, and it consumes at least one character. |
| `ZoneConfig.ExtractReal` | core/hailo/plugins/overlay/config.cpp:88-94 | `ss >> float` succeeds only with a nonempty numeral, and it consumes at least one character. |
| `ZoneConfig.Comma` | core/hailo/plugins/overlay/config.cpp:89 | `ss.get() != ','`: the next character is consumed and must be a comma; the field is accepted exactly when the text left starts with one, and the text after it is what remains. |
| `ZoneConfig.RealField` | core/hailo/plugins/overlay/config.cpp:88-89 | A float extraction followed by the comma check. Its contract is `ZoneConfigProperties.RealFieldOf`: a written numeral followed by a comma reads back as that numeral, and the rest after the comma is left unread. `LeadingSpacesIgnored` adds that leading whitespace changes nothing. |
| `ZoneConfig.IntField` | core/hailo/plugins/overlay/config.cpp:99-100 | An int extraction followed by the comma check, as at lines 99-100, 114-115, 119-120 and 124-125. Its contract is `ZoneConfigProperties.IntFieldOf`: a written integer followed by a comma reads back exactly when it fits a 32-bit `int`. `DecimalInIntSlotRejected` shows a decimal in an int slot is rejected. |
| `ZoneConfig.CoordFields` | core/hailo/plugins/overlay/config.cpp:88-95 | The four coordinate fields in order. Its contract is `ZoneConfigProperties.CoordFieldsOf`: four written numerals, each followed by a comma, read back in order. |
| `ZoneConfig.ColorFields` | core/hailo/plugins/overlay/config.cpp:98-110 | An accepted colour has every component in 0..255. |
| `ZoneConfig.FlagField` | core/hailo/plugins/overlay/config.cpp:113-126 | A flag field is accepted exactly when its integer field is, and the flag is true exactly when that integer is nonzero; the rest is the integer field's rest. `ZoneConfigProperties.FlagFieldsOf` states it for written flags. |
| `ZoneConfig.FlagFields` | core/hailo/plugins/overlay/config.cpp:113-126 | The three flags testsbelow, show and showcar in order. Its contract is `ZoneConfigProperties.FlagFieldsOf`: each flag is true exactly when its written integer is nonzero, and a value outside 32 bits rejects the line. |
| `ZoneConfig.LabelField` | core/hailo/plugins/overlay/config.cpp:129-131 | An accepted label is nonempty and holds no comma. |
| `ZoneConfig.Pieces` | core/hailo/plugins/overlay/config.cpp:134-142 | Every prohibited label is nonempty and holds no bar separator. |
| `ZoneConfig.ParseHead` | core/hailo/plugins/overlay/config.cpp:88-135 | The fixed fields: colour components in 0..255, a nonempty label without commas, and a remainder cut at the first newline. |
| `ZoneConfig.ParseEntry` | core/hailo/plugins/overlay/config.cpp:81-149 | An accepted line has colour components in 0..255, a nonempty comma-free label, and nonempty prohibited pieces without bar separators. |
| `ZoneConfig.SplitProhibited` | core/hailo/plugins/overlay/config.cpp:136-142 | The `while (getline(…))` loop over bar-separated pieces pushes exactly the nonempty pieces, in order (it equals `Pieces`). |
| `ZoneConfig.ParseLine` | core/hailo/plugins/overlay/config.cpp:81-149 | The cursor-based parser returns exactly `ParseEntry(line)`: the entry, or nothing on any rejection. |
| `ZoneConfig.Skipped` | core/hailo/plugins/overlay/config.cpp:166-168 | An empty line or one starting with `#` is passed over. Its contract is `ZoneConfigProperties.LoadSkipsLine`: such a line anywhere changes nothing in the load. |
| `ZoneConfig.LoadResult` | core/hailo/plugins/overlay/config.cpp:164-186 | What a load yields: nothing when a line that is not skipped is rejected, otherwise the accepted entries in file order. Its contracts are `ZoneConfigProperties.HasBadLineIff`, `LoadConcat`, `LoadSkipsLine` and `LoadRejectsBadLine`, and `Config.Load` is proved equal to it. |
| `ZoneConfig.ParsedEntries` | core/hailo/plugins/overlay/config.cpp:164-176 | The `new_entries` list: the entries of the accepted lines, in file order. Its contracts are `ZoneConfigProperties.ConcatEntries` and `LoadConcat`, and `Config.Load` installs exactly this list on success. |
| `ZoneConfig.HasBadLine` | core/hailo/plugins/overlay/config.cpp:162-179 | The `has_error` flag. Its contract is `ZoneConfigProperties.HasBadLineIff`: it is set exactly when some line that is not skipped is rejected. |
| `ZoneConfig.Config.constructor` | core/hailo/plugins/overlay/config.hpp:42-45 | Construction loads the file once: the entries are the loaded list, or empty if the load fails. |
| `ZoneConfig.Config.GetEntries` | core/hailo/plugins/overlay/config.cpp:13-16 | The snapshot is the current entry list. |
| `ZoneConfig.Config.Load` | core/hailo/plugins/overlay/config.cpp:151-187 | The result is true iff the file opened and no line that is not skipped was rejected. On true the entries are replaced by the accepted entries in file order; on false they are unchanged. |
| `ZoneConfigProperties.LeadingSpacesIgnored` | core/hailo/plugins/overlay/config.cpp:88-126 | Whitespace before a number changes neither what the integer or float extraction reads nor whether its field is accepted. |
| `ZoneConfigProperties.DecimalInIntSlotRejected` | core/hailo/plugins/overlay/config.cpp:99-100 | `"12.5"` in an int slot reads 12 and leaves `".5"`. The next character is not a comma, so the field is rejected. |
| `ZoneConfigProperties.ReadIntOf` | core/hailo/plugins/overlay/config.cpp:99-100 | The integer extraction reads the decimal text of an integer back, stopping at the first non-digit, exactly when the value fits a 32-bit `int`; otherwise it fails. |
| `ZoneConfigProperties.IntFieldOf` | core/hailo/plugins/overlay/config.cpp:99-100 | A written integer followed by a comma is read back exactly when it fits a 32-bit `int`, and nothing after the comma is consumed. |
| `ZoneConfigProperties.RealFieldOf` | core/hailo/plugins/overlay/config.cpp:88-89 | A written decimal numeral followed by a comma is read back as that numeral, with the rest after the comma left unread. |
| `ZoneConfigProperties.LabelFieldOf` | core/hailo/plugins/overlay/config.cpp:129-131 | A comma-free label followed by a comma is read back; an empty one rejects the line. |
| `ZoneConfigProperties.CoordFieldsOf` | core/hailo/plugins/overlay/config.cpp:88-95 | Four written numerals, each followed by a comma, are read back in order. |
| `ZoneConfigProperties.ColorFieldsOf` | core/hailo/plugins/overlay/config.cpp:97-110 | Written r, g, b are stored in r, g, b order when all lie in 0..255. Otherwise the line is rejected. |
| `ZoneConfigProperties.FlagFieldsOf` | core/hailo/plugins/overlay/config.cpp:112-126 | Each of testsbelow, show and showcar is true exactly when its integer is nonzero. |
| `ZoneConfigProperties.ParseFormatLine` | core/hailo/plugins/overlay/config.cpp:81-149 | A line written from its fields parses back to exactly those fields. It is rejected exactly when a colour component is out of range, a flag does not fit an `int`, or the label is empty. |
| `ZoneConfigProperties.PiecesConcat` | core/hailo/plugins/overlay/config.cpp:134-142 | Splitting is compositional: the pieces of a, a bar, then b are the pieces of a followed by those of b. |
| `ZoneConfigProperties.PiecesJoin` | core/hailo/plugins/overlay/config.cpp:134-142 | Nonempty labels without a bar, joined with bars, split back into the same list in order, commas and all. |
| `ZoneConfigProperties.HasBadLineIff` | core/hailo/plugins/overlay/config.cpp:164-181 | The error flag is set iff some line that is not skipped is rejected. |
| `ZoneConfigProperties.LoadConcat` | core/hailo/plugins/overlay/config.cpp:164-186 | A load is all-or-nothing and keeps file order: a + b loads iff both halves load, to the entries of a followed by those of b. |
| `ZoneConfigProperties.LoadSkipsLine` | core/hailo/plugins/overlay/config.cpp:166-168 | An empty line or a `#` line anywhere in the file changes nothing. |
| `ZoneConfigProperties.LoadRejectsBadLine` | core/hailo/plugins/overlay/config.cpp:170-181 | One rejected line anywhere makes the whole load fail. |
| `Hailo.Detections` | core/hailo/libs/postprocesses/traffi/traffi.cpp:71 | `get_objects_typed(HAILO_DETECTION)` yields exactly the detections of the frame, and no more of them than there are objects. |
| `Hailo.NonDetections` | core/hailo/libs/postprocesses/traffi/traffi.cpp:91 | `remove_objects_typed(HAILO_DETECTION)` keeps exactly the objects that are not detections. |
| `Hailo.Roi.DetectionsTyped` | core/hailo/libs/postprocesses/traffi/traffi.cpp:71 | The frame's detections, in order. |
| `Hailo.Roi.RemoveDetections` | core/hailo/libs/postprocesses/traffi/traffi.cpp:91 | The object list becomes its non-detection objects, in order. |
| `Hailo.Roi.AddObject` | core/hailo/libs/postprocesses/traffi/traffi.cpp:104 | The object is appended to the frame. |
| `Traffi.AsVehicle` | core/hailo/libs/postprocesses/traffi/traffi.cpp:79-80 | The copy is labelled "vehicle"; its box, confidence and sub-objects are the original's. |
| `Traffi.IsChosenType` | core/hailo/libs/postprocesses/traffi/traffi.cpp:75 | The chosen classes are exactly car, bus, truck, train and boat. Its contracts are `TraffiProperties.CandidatesNoneChosen` (no chosen class, no candidate) and `TraffiProperties.VehicleNotChosen` ("vehicle" is not chosen). |
| `Traffi.Register` | core/hailo/libs/postprocesses/traffi/traffi.cpp:82-89 | After registering, the keys are the old keys plus the copy's unique ids. Those ids now map to the copy, and every other key keeps its value. |
| `Traffi.Candidates` | core/hailo/libs/postprocesses/traffi/traffi.cpp:69-90 | Every candidate is labelled "vehicle". |
| `OrderedKeys.SortedKeys` | core/hailo/libs/postprocesses/traffi/traffi.cpp:92 | `std::map` iteration order: each key exactly once, strictly ascending. |
| `Traffi.CollectCandidates` | core/hailo/libs/postprocesses/traffi/traffi.cpp:69-90 | The nested loops build exactly the map `Candidates(ds)`. |
| `Traffi.StoreUnderIds` | core/hailo/libs/postprocesses/traffi/traffi.cpp:82-89 | The inner loop maps every unique id among the sub-objects to the copy and leaves every other key as it was: the result is `Register(c, v, subs)`. |
| `Traffi.AddCandidates` | core/hailo/libs/postprocesses/traffi/traffi.cpp:92-105 | The loop over the map appends one detection per key, in ascending key order. |
| `Traffi.Emitted` | core/hailo/libs/postprocesses/traffi/traffi.cpp:92-104 | The objects the last loop of `filter` adds: one detection per candidate key, in ascending key order. Its contract is `Traffi.EmittedLeast`, which says it starts with the least key; `Traffi.AddCandidates` is proved to append exactly this, and `TraffiProperties.FilterDetections` states what it holds. |
| `Traffi.Filter` | core/hailo/libs/postprocesses/traffi/traffi.cpp:65-106 | The frame afterwards is `FilteredFrame` of the frame before. |
| `Traffi.FilteredFrame` | core/hailo/libs/postprocesses/traffi/traffi.cpp:65-106 | The frame after `filter`: its non-detection objects in order, then one relabelled copy per candidate id in ascending id order. Its contracts are `TraffiProperties.FilterKeepsOthers`, `FilterDetections`, `FilterRelabels` and `FilterTwice`, and `Traffi.Filter` is proved to produce it. |
| `Traffi.FirstOverlap` | core/hailo/libs/postprocesses/traffi/traffi.cpp:44-49 | Gives the first index whose IoU with the query exceeds 0.75, with none earlier; or none when no stored box matches. |
| `Traffi.Overlaps` | core/hailo/libs/postprocesses/traffi/traffi.cpp:45 | The strict comparison `iou_calc(...) > 0.75f`. Its contract is `Traffi.FirstOverlap`, whose ensures say the index found overlaps and no earlier one does; `TraffiProperties.FirstOverlapAppend` keeps earlier matches. |
| `Traffi.Lookup` | core/hailo/libs/postprocesses/traffi/traffi.cpp:29-36 | The two-level lookup: a detection exactly when the hailo id maps to a vehicle id that maps to a detection. Its contract is `TraffiProperties.LookupAfterMap`, and `TurnTracker.GetVehicleDetForHailoDet` is proved equal to it. |
| `Traffi.TurnTracker.constructor` | core/hailo/libs/postprocesses/traffi/traffi.cpp:12-18 | A new tracker has current id 0, empty maps and an empty list. |
| `Traffi.TurnTracker.GetVehicleDetForHailoDet` | core/hailo/libs/postprocesses/traffi/traffi.cpp:27-39 | Returns a detection only when the hailo id maps to a vehicle id that maps to a detection; otherwise null. In a valid tracker it succeeds iff the hailo id is mapped, and the detection is in the list. |
| `Traffi.TurnTracker.GetVehicleDetMatchingHailoDetIou` | core/hailo/libs/postprocesses/traffi/traffi.cpp:41-50 | Returns the first stored detection, in insertion order, whose IoU with the query exceeds 0.75; null when there is none. |
| `Traffi.TurnTracker.MapHailoIdToVehicleDet` | core/hailo/libs/postprocesses/traffi/traffi.cpp:52-58 | Appends the detection with no duplicate check and overwrites both map entries. The current id stays as it was, and nothing else changes; validity is kept. |
| `TraffiProperties.CandidatesKeys` | core/hailo/libs/postprocesses/traffi/traffi.cpp:73-89 | An id is a candidate iff some car, bus, truck, train or boat detection carries it as a unique id. |
| `TraffiProperties.CandidatesLastWins` | core/hailo/libs/postprocesses/traffi/traffi.cpp:82-89 | When several chosen detections carry the same id, the candidate is the relabelled copy of the last one. |
| `TraffiProperties.CandidatesNoneChosen` | core/hailo/libs/postprocesses/traffi/traffi.cpp:75-78 | Detections of other classes never become candidates. |
| `TraffiProperties.FilterKeepsOthers` | core/hailo/libs/postprocesses/traffi/traffi.cpp:91-105 | `filter` leaves the non-detection objects as they were, in order. |
| `TraffiProperties.FilterDetections` | core/hailo/libs/postprocesses/traffi/traffi.cpp:91-105 | After `filter`, the frame's detections are exactly the candidates, one per id, in ascending id order. No original detection remains. |
| `TraffiProperties.VehicleNotChosen` | core/hailo/libs/postprocesses/traffi/traffi.cpp:75-80 | The label "vehicle" is not one of the chosen classes. |
| `TraffiProperties.FilterRelabels` | core/hailo/libs/postprocesses/traffi/traffi.cpp:79-104 | Every detection `filter` leaves in the frame is labelled "vehicle". |
| `TraffiProperties.FilterTwice` | core/hailo/libs/postprocesses/traffi/traffi.cpp:65-106 | Filtering an already filtered frame removes every detection and keeps only the other objects. |
| `TraffiProperties.FirstOverlapAppend` | core/hailo/libs/postprocesses/traffi/traffi.cpp:44-54 | Appending a vehicle detection never changes an earlier IoU match. The new one is found only when nothing earlier matches. |
| `TraffiProperties.LookupAfterMap` | core/hailo/libs/postprocesses/traffi/traffi.cpp:27-56 | After a mapping, the hailo id resolves to the new detection. So does every other hailo id already on that vehicle id, and every other id resolves as before. |
| `EventLog.TruncDiv` | core/hailo/libs/postprocesses/traffi/event_logger.cpp:99 | C++ division truncates toward zero; the quotient bounds the dividend from the side of zero. |
| `EventLog.EpochSeconds` | core/hailo/libs/postprocesses/traffi/event_logger.cpp:39-41 | The timestamp is the clock reading in whole seconds, truncated toward zero. |
| `EventLog.BoolText` | core/hailo/libs/postprocesses/traffi/event_logger.cpp:63 | `legal` is written as the literal `true` or `false`, `true` exactly when legal. |
| `EventLog.CurlSucceeded` | core/hailo/libs/postprocesses/traffi/event_logger.cpp:70-101 | `curl` returns true iff there is a handle, the perform succeeds, the getinfo succeeds and the response code is 200..299 (`http_code / 100 == 2`). |
| `EventLog.DetectionRecord` | core/hailo/libs/postprocesses/traffi/event_logger.cpp:43-45 | The detection record of `logDetection`. Its contract is `EventLogProperties.DetectionRoundTrip`: with a side free of double quotes it reads back as the vehicle id, side and timestamp it was made from. |
| `EventLog.CrossingRecord` | core/hailo/libs/postprocesses/traffi/event_logger.cpp:60-65 | The crossing record of `logCrossing`. Its contracts are `EventLogProperties.CrossingRoundTrip`, which reads it back when side and origin hold no double quote, and `CrossingQuoteAmbiguity`, which shows two crossings giving one record when they may. |
| `EventLogProperties.DetectionRoundTrip` | core/hailo/libs/postprocesses/traffi/event_logger.cpp:43-45 | The record `detection,side="<side>" vehicle_id=<id> <seconds>` reads back as its id, side and seconds when the side holds no double quote. |
| `EventLogProperties.CrossingRoundTrip` | core/hailo/libs/postprocesses/traffi/event_logger.cpp:60-65 | The record `crossing,side="<side>",origin="<origin>",legal=<bool> vehicle_id=<id> <seconds>` reads back as its fields when side and origin hold no double quote. |
| `EventLogProperties.CrossingQuoteAmbiguity` | core/hailo/libs/postprocesses/traffi/event_logger.cpp:61-62 | Side and origin are inserted verbatim, without escaping. Two different crossings give the same record when the side ends in `",origin="` and more text. |
| `EventLogProperties.EpochSecondsOfSecond` | core/hailo/libs/postprocesses/traffi/event_logger.cpp:39-41 | Every clock reading within the second after epoch second t is recorded as t. |

## Left out

- The inotify watcher thread, `startFileWatcher`, `cleanupWatcher` and the destructor (`config.cpp:9-11, 18-79`): operating-system I/O and concurrency. A reload from the watcher is one more call of `Config.Load`.
- Mutexes, shared locks and singletons (`Config::Get`, `TurnTracker::GetInstance`, `EventLogger::getInstance`): the model has single-threaded, explicitly constructed instances.
- Opening and reading the file at `filepath_`: the lines are a parameter, and `None` stands for a file that did not open. `line_number` and every message written to `std::cerr`/`std::cout` are output only and are not modelled.
- The `try`/`catch` in `parseLine`: the stream operations used do not throw with the default exception mask, so the handler's path is not modelled.
- ZoneConfig.ExtractReal: the float value is not modelled, and the numeral text is kept instead. A numeral whose value overflows `float` (such as `1e999`) is accepted by the model although the stream fails. An exponent marker with no digits makes the stream fail, while the model stops before the marker. In every such case except overflow the line is rejected either way, because the next character is not a comma.
- `cv::Scalar`: the colour is three integers. The fourth component, always 0, is dropped, and OpenCV itself is not modelled.
- The Hailo object library (`HailoROI`, `HailoDetection`, `hailo_common`) is not part of this model. `get_objects_typed`, `remove_objects_typed` and `add_object` are modelled by their effect on the object list.
- Pointer sharing in `filter` and the tracker: a detection copy registered under several ids is several equal values. The shared sub-object pointers of a copy are values too, so later mutation through an alias is not modelled.
- `common::iou_calc` is not part of this model. It is the parameter `iou`, and its `float` result is compared as a real number with `0.75`, which `0.75f` represents exactly.
- Traffi.TurnTracker.GetVehicleDetMatchingHailoDetIou: returns the matched detection by value, not the pointer.
- `add_vehicle_det`, `vehicle_detections`, `mark_seen`, `gc` and `illegal_turn` (`traffi.hpp:27-31`): declared with no definition, so there is nothing to model. The commented-out tracker interface (`traffi.hpp:32-54`) is dead code.
- The debug printing in `filter` (`traffi.cpp:67, 87, 99-102`) and of the HTTP code in `curl`.
- The CURL handle set-up and request (`event_logger.cpp:22-33, 75-93`), the URL, the headers and the authorization token: network I/O. The request's outcome is the `Transfer` parameter of `CurlSucceeded`.
- `logDetection` and `logCrossing` post `DetectionRecord(id, side, EpochSeconds(now))` or `CrossingRecord(…)` and return `CurlSucceeded` of that request. The clock read and the post are I/O, so this composition has no member of its own.
- EventLog.EpochSeconds: the clock is read in nanoseconds, the period of `system_clock` in libstdc++; other clock periods are not modelled.
- The 64-bit widths of the timestamp (`std::chrono::seconds::rep`, which is `int64_t`, `long` on LP64 with libstdc++) and of `http_code` (`long`) are not modelled, since no arithmetic in the model can overflow them.
