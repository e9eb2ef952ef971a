# UWB localization core, modelled in Dafny

This project models the sequential core of a UWB (ultra-wideband) tag
localization system. That core has four parts:

- **TinyJson** (`UWB_HHEV.OS/TinyJson.cc`), a JSON library.
  - Its value layer: the Json variant, accessors that fall back to defaults, and `operator==`/`operator<`.
  - Its serialiser: the `dumpJson` overloads and `Json::dump`.
  - Its recursive-descent parser: `JsonParser`, `Json::parse` and `Json::parseMulti`.
- **The C++ UWB layer** (`UWB_HHEV.OS/UWB_manager.cc`).
  - `UWBManager` decodes 16-byte serial frames into three anchor distances and a tag id, and queues the readings.
  - `UWBLocalizeSystem` keeps the anchor list. It turns each reading into a tag state and queues that.
- **The Python UWB layer** (`uwb_manager.py`).
  - `UWBManager` keeps the latest distances decoded from 16-byte serial lines.
  - `UWBLocalizationSystem` keeps the anchor-to-anchor distances and the tag position.
- **`BlockQueue<T>`** (`UWB_HHEV.OS/include/BlockQueue.h`), a bounded FIFO with an exit flag. Both C++ queues use it.

The model follows the shape of each source file.

- The JSON serialiser and parser are imperative in the source.
  - Each one is a specification function over values: `JsonDump.DumpText`, and `JsonSpec.ParseValue` over an explicit parser state (cursor, `failed` flag, first error).
  - Each one is also a method that works step by step: `JsonDump.Dump` appends to a buffer, and the `JsonParsing.JsonParser` class moves its cursor.
  - Each method is proved to compute exactly its specification function.
  - The round-trip, rejection and nesting-limit properties are then lemmas about the functions.
- `BlockQueue` and the two UWB layers are classes whose methods update fields. Their contracts are stated against functions of the old state.
  - `BlockQueues.Run` gives a whole run of queue operations.
  - `UwbManager.Frames` gives what a run of serial reads queues.
  - `UwbManager.ReadState` gives what a run of `getUWBState` calls leaves behind.
  - `UwbManagerPy.Latest` gives the distances after a run of `readline` results.

Bytes of a `std::string` are `char`s below 0x100 and are compared as unsigned values. C++ distances are whole centimetres. The `float` metres the C++ code computes are `Metres(cm) = cm / 100` as an exact real. Python numbers are exact reals.

Facts about the code that the model keeps as written:

- The C++ layer keeps at most 3 anchors. `setAnchorPosition` stops adding at 3.
- The two decoders read different bytes, and the model keeps them apart.
  - The C++ decoder reads the tag id at byte 3, and anchor 0's distance from bytes 7 (high) and 6 (low), then 9/8 and 11/10.
  - The Python decoder reads 8/7, 10/9 and 12/11, and no tag id.
- `activeUWBSystem` does not fail with fewer than 3 anchors. It pads the list with the default layout, so the check for 3 anchors that follows always passes (`UwbManager.ActivatedFills`).
- Readings and tag states go through queues of capacity 5. A reader that finds the queue empty gets the last value it took again (`UwbManager.ReadStateDrains`).
- `tag_state_` and the `tag_id` of a default `UWBData` are left uninitialised.
  - The first is a constructor parameter.
  - The second is `None`.
  - The value-initialised `UWBData{}` and `TAGState{}` that a pop after exit returns are zero, tag id included (`UwbManager.ZERO_DATA`, `UwbManager.ZERO_STATE`).
- `processMLE` inverts its 2x2 matrix without checking it. Its least-squares arithmetic is not interpreted here; the estimate is an input.
- Python's `caculateCosAngle` raises `ZeroDivisionError` when a distance next to the angle is 0. Its `math.acos` raises `ValueError` when the three distances do not form a triangle. `caculateTagPosition` then leaves the position as it was, and the exception propagates (`UwbManagerPy.TagAngleDomain`).
- `parseString` writes a `\u` escape of a surrogate that no other half completes as the three bytes `encodeUtf8` gives it (ED A0 80 to ED BF BF). RFC 3629 does not allow these bytes (`Utf8.LoneSurrogate`).

## Model

| member | source | states |
|---|---|---|
| JsonValues.KeyLessTransitive | UWB_HHEV.OS/TinyJson.cc:144-158 | The unsigned-byte lexicographic order of std::string keys, which sets the order of map entries, is transitive |
| JsonValues.KeyLessTotal | UWB_HHEV.OS/TinyJson.cc:144-158 | Any two distinct keys are ordered one way or the other, so a map's entries have one order |
| JsonValues.InsertSorted | UWB_HHEV.OS/TinyJson.cc:904 | `data[key] = value` keeps the entries strictly in key order |
| JsonValues.InsertFind | UWB_HHEV.OS/TinyJson.cc:904 | After `data[key] = value` the key maps to the value, so a repeated key keeps its last value; every other key keeps its value |
| JsonAccessors.IntValueReadBack | UWB_HHEV.OS/TinyJson.cc:235-238 | The text dumped for an int64 parses to a value whose intValue is that int64; its stringValue, arrayItems and objectItems are the empty defaults |
| JsonValues.BoolValue | UWB_HHEV.OS/TinyJson.cc:447-450 | boolValue is true exactly for the value true; every other value gives false |
| JsonAccessors.StringValueReadBack | UWB_HHEV.OS/TinyJson.cc:451-454 | The text dumped for any byte string parses to a value whose stringValue is that string; its intValue is 0 and its container accessors are empty |
| JsonAccessors.ArrayItemsReadBack | UWB_HHEV.OS/TinyJson.cc:455-458 | A dumped array parses to a value whose arrayItems are its items, whose operator[](k) is item k and null past the end, and whose objectItems are empty |
| JsonAccessors.ObjectItemsReadBack | UWB_HHEV.OS/TinyJson.cc:459-462 | A dumped object parses to a value whose objectItems are its entries, whose operator[](key) is the value of each of its keys, and whose arrayItems are empty |
| JsonAccessors.FailedParseDefaults | UWB_HHEV.OS/TinyJson.cc:950-963 | When Json::parse reports an error, every accessor of its result gives its default: 0, false, empty, and null for operator[] at every index and every key |
| JsonValues.Index | UWB_HHEV.OS/TinyJson.cc:477-483 | operator[](i) is item i of an array; out of range, or on a non-array, it is null |
| JsonValues.Lookup | UWB_HHEV.OS/TinyJson.cc:472-476 | operator[](key) is the value stored under the key; a missing key, or a non-object, gives null |
| JsonValues.LookupAfterInsert | UWB_HHEV.OS/TinyJson.cc:904 | Reading back a key just assigned gives the assigned value; other keys read as before |
| JsonCompare.RoundExact | UWB_HHEV.OS/TinyJson.cc:239-246 | Converting an int64 of magnitude up to 2^53 to double (JsonInt compares through numberValue) loses nothing |
| JsonCompare.RoundPastTwo53 | UWB_HHEV.OS/TinyJson.cc:239-246 | 2^53 + 1 converts to 2^53 under round-to-nearest-even, and -(2^53 + 1) to -2^53 |
| JsonCompare.EqualReflexive | UWB_HHEV.OS/TinyJson.cc:489-497 | Every value equals itself, so the shared-pointer shortcut of operator== agrees with the structural comparison |
| JsonCompare.EqualSymmetric | UWB_HHEV.OS/TinyJson.cc:489-497 | operator== gives the same answer either way round |
| JsonCompare.EqualTransitive | UWB_HHEV.OS/TinyJson.cc:489-497 | operator== is transitive, through arrays (std::equal) and objects (pairwise key and value) |
| JsonCompare.LessIrreflexive | UWB_HHEV.OS/TinyJson.cc:499-507 | No value is less than itself, so the shortcut of operator< agrees with the structural comparison |
| JsonCompare.LessAsymmetric | UWB_HHEV.OS/TinyJson.cc:499-507 | Of two values, at most one is less than the other, for any order of the types |
| JsonCompare.EqualNotLess | UWB_HHEV.OS/TinyJson.cc:188-195 | Equal values are not less than one another in either direction |
| JsonCompare.Trichotomy | UWB_HHEV.OS/TinyJson.cc:499-507 | When the type order tells the types apart, any two values are equal or one is less than the other |
| JsonCompare.IntCompareExact | UWB_HHEV.OS/TinyJson.cc:239-246 | Up to 2^53 in magnitude, two integer values are equal, or less, exactly as integers are |
| JsonCompare.IntCompareRounded | UWB_HHEV.OS/TinyJson.cc:239-246 | 2^53 and 2^53 + 1 compare equal and neither is less, because both are compared as doubles |
| JsonDump.HexDigitText | UWB_HHEV.OS/TinyJson.cc:102-106 | The hex digit dumpJson(string) writes for d is one the parser reads back as d |
| JsonDump.DumpString | UWB_HHEV.OS/TinyJson.cc:68-128 | The byte loop of dumpJson(string) appends exactly StringText(value): the value's escapes between double quotes |
| JsonDump.Dump | UWB_HHEV.OS/TinyJson.cc:160-163 | Json::dump appends exactly DumpText(v): null, true/false, the int64 in decimal, the escaped string, or the array or object text |
| JsonDump.DumpArray | UWB_HHEV.OS/TinyJson.cc:130-142 | dumpJson(array) appends "[", the items' dumps separated by ", ", and "]" |
| JsonDump.DumpObject | UWB_HHEV.OS/TinyJson.cc:144-158 | dumpJson(object) appends "{", the entries as `"key": value` separated by ", " in map order, and "}" |
| JsonSpec.SkipWsOnlyWs | UWB_HHEV.OS/TinyJson.cc:574-582 | consumeWhitespace steps over space, CR, LF and tab only |
| JsonSpec.NextToken | UWB_HHEV.OS/TinyJson.cc:589-598 | getNextToken returns the next byte that is not whitespace and steps past it; at the end of the input it fails and returns NUL; a failed parser stays failed with its first message |
| JsonSpec.EscapedByte | UWB_HHEV.OS/TinyJson.cc:721-748 | Exactly the escape letters b f n r t " \ / stand for one byte; " \ / stand for themselves |
| JsonSpec.Expect | UWB_HHEV.OS/TinyJson.cc:835-849 | expect succeeds exactly when the literal starts at the byte just read; it then returns the value and moves past the literal, and otherwise fails with null |
| JsonSpec.ParseNumber | UWB_HHEV.OS/TinyJson.cc:756-828 | parseNumber either fails with null or moves forward and gives an int64 or a double |
| JsonSpec.ParseValue | UWB_HHEV.OS/TinyJson.cc:855-946 | parseJson at a depth above 200 always fails; a successful parse moves the cursor forward; only the first failure is recorded |
| JsonSpec.Parse | UWB_HHEV.OS/TinyJson.cc:950-963 | Json::parse returns null whenever it reports an error |
| JsonSpec.ParseMulti | UWB_HHEV.OS/TinyJson.cc:965-985 | parseMulti reports no error only after reading to the end of the input; with an error it has pushed at least one value |
| JsonParsing.JsonParser.Fail | UWB_HHEV.OS/TinyJson.cc:561-568 | fail sets the failed flag and writes the message only when no earlier failure wrote one |
| JsonParsing.JsonParser.ConsumeWhitespace | UWB_HHEV.OS/TinyJson.cc:574-582 | The loop moves the cursor to SkipWs and changes nothing else |
| JsonParsing.JsonParser.GetNextToken | UWB_HHEV.OS/TinyJson.cc:589-598 | The method returns the byte and state NextToken gives |
| JsonParsing.JsonParser.ParseString | UWB_HHEV.OS/TinyJson.cc:637-750 | The loop with its escape branch computes exactly the ParseString function: the decoded bytes and the state after the closing quote, or the failure |
| JsonParsing.JsonParser.ParseNumber | UWB_HHEV.OS/TinyJson.cc:756-828 | The scanning code computes exactly the ParseNumber function |
| JsonParsing.JsonParser.Expect | UWB_HHEV.OS/TinyJson.cc:835-849 | The method computes exactly the Expect function |
| JsonParsing.JsonParser.ParseJson | UWB_HHEV.OS/TinyJson.cc:855-946 | The recursive method, with its object and array loops, computes exactly the ParseValue function |
| JsonParsing.Parse | UWB_HHEV.OS/TinyJson.cc:950-963 | Json::parse returns the value and error the Parse function gives: one value, then only whitespace |
| JsonParsing.ParseMulti | UWB_HHEV.OS/TinyJson.cc:965-985 | Json::parseMulti's loop returns the values, stop position and error of the ParseMulti function |
| Utf8.EncodeLength | UWB_HHEV.OS/TinyJson.cc:604-631 | encodeUtf8 writes nothing for a negative value, then 1, 2, 3 or 4 bytes below 0x80, 0x800, 0x10000 and beyond |
| Utf8.EncodeDecode | UWB_HHEV.OS/TinyJson.cc:604-631 | For every Unicode scalar value (up to 0x10FFFF and not a surrogate), encodeUtf8 writes one character of the UTF-8 syntax of section 4 of RFC 3629, which decodes back to it, with a lead byte from C2 to F4 when longer than one byte |
| Utf8.SurrogateBytes | UWB_HHEV.OS/TinyJson.cc:604-631 | For a surrogate, encodeUtf8 writes three bytes starting ED A0 to ED BF, which no RFC 3629 character reads as |
| Utf8.LoneSurrogate | UWB_HHEV.OS/TinyJson.cc:645-711 | A string whose one escape is a \u surrogate parses, with no error, to those three bytes, which are not UTF-8 |
| Utf8.CombineSplits | UWB_HHEV.OS/TinyJson.cc:697-706 | The pair reassembly `((lead - 0xD800) << 10 \| (trail - 0xDC00)) + 0x10000` is the inverse of the surrogate split of section 2.1 of RFC 2781, in both directions |
| Utf8.SurrogatePairStep | UWB_HHEV.OS/TinyJson.cc:672-715 | Anywhere in a string, whatever was decoded before and whatever follows, a \u lead surrogate followed by a \u trail surrogate writes out the pending code point, then the UTF-8 of the one code point the pair encodes, and leaves nothing pending |
| Utf8.ParseSurrogatePair | UWB_HHEV.OS/TinyJson.cc:672-715 | A string whose content is a \u lead surrogate followed by a \u trail surrogate parses as the UTF-8 of the one code point they encode |
| JsonRejects.StringRejects | UWB_HHEV.OS/TinyJson.cc:641-748 | parseString fails, with its own message, on end of input, an unescaped byte 0x00-0x1F, a backslash at the end, an escape letter outside b f n r t " \ / u, and a \u without four hex digits |
| JsonRejects.UnterminatedString | UWB_HHEV.OS/TinyJson.cc:641-662 | Ordinary bytes running to the end of the input, with no closing quote, make parseString fail with "unexpected end of input in std::string" |
| JsonRejects.UnterminatedParse | UWB_HHEV.OS/TinyJson.cc:950-960 | Json::parse on an unterminated string returns null and reports the missing quote |
| JsonRejects.IntegerPartRejects | UWB_HHEV.OS/TinyJson.cc:768-783 | A number may not start with '0' followed by a digit, and must start with a digit after the optional '-' |
| JsonRejects.FractionRejects | UWB_HHEV.OS/TinyJson.cc:802-806 | A '.' not followed by a digit fails with "at least one digit required in fractional part" |
| JsonRejects.ExponentRejects | UWB_HHEV.OS/TinyJson.cc:813-825 | An exponent with no digit after its optional sign fails with "at least one digit required in exponent"; with a digit it does not fail |
| JsonRejects.IntegerFastPath | UWB_HHEV.OS/TinyJson.cc:785-799 | A number is an int64 exactly when no '.', 'e' or 'E' follows its integer part and it has at most 19 characters (20 with '-'); that int64 is the signed value of its digits |
| JsonRoundTrip.StringRoundTrip | UWB_HHEV.OS/TinyJson.cc:68-128 | Json::parse reads the dump of any string back as that string, with no error |
| JsonRoundTrip.IntRoundTrip | UWB_HHEV.OS/TinyJson.cc:56-61 | Json::parse reads the dump of any int64 back as that int64, with no error |
| JsonRoundTrip.EncodeSeparators | UWB_HHEV.OS/TinyJson.cc:108-117 | U+2028 and U+2029, which the dump writes as the escapes `\u2028` and `\u2029`, encode back to the bytes E2 80 A8 and E2 80 A9 they replaced |
| JsonRoundTrip.DigitsValue | UWB_HHEV.OS/TinyJson.cc:56-61 | The decimal digits written for n read back as n |
| JsonRoundTrip.DigitsInt64 | UWB_HHEV.OS/TinyJson.cc:785-799 | An int64's magnitude has at most 19 digits, so a dumped int64 takes the integer path |
| JsonTreeRoundTrip.DumpThenParse | UWB_HHEV.OS/TinyJson.cc:130-163 | Json::parse(v.dump()) == v for every value with well-ordered objects, no double, and nesting within 200 |
| JsonFailures.DepthLimit | UWB_HHEV.OS/TinyJson.cc:855-860 | 201 arrays inside each other parse back; 202 are refused with "exceeded maximum nesting depth" and give null |
| JsonFailures.LiteralMismatch | UWB_HHEV.OS/TinyJson.cc:835-849 | A text that starts like true, false or null but does not spell it is refused, and the message names the literal and the bytes found |
| JsonFailures.DumpThenTrailing | UWB_HHEV.OS/TinyJson.cc:955-960 | After a value, whitespace alone is accepted; any other byte after it makes parse fail with "unexpected trailing" and null |
| JsonFailures.DumpThenParseMulti | UWB_HHEV.OS/TinyJson.cc:965-985 | parseMulti on newline-separated dumps reads back every value, stops at the end and reports no error |
| BlockQueues.SizeSteps | UWB_HHEV.OS/include/BlockQueue.h:94-132 | A push before exit adds one item and a pop of a stored item removes one; after exit a push changes nothing and a pop on an empty queue gives T{} and leaves it empty |
| BlockQueues.RunFifo | UWB_HHEV.OS/include/BlockQueue.h:101-132 | Before exit, the items popped followed by those still stored are the initial items followed by the items pushed, in order |
| BlockQueues.RunWithinBound | UWB_HHEV.OS/include/BlockQueue.h:89-101 | No run of operations takes the queue past its capacity |
| BlockQueues.RunAfterExit | UWB_HHEV.OS/include/BlockQueue.h:94-132 | After exit nothing blocks, pushes change nothing, and pops drain the stored items in order and then give T{} |
| BlockQueues.BlockQueue.Default | UWB_HHEV.OS/include/BlockQueue.h:15 | The default constructor gives capacity 1000, an empty queue and no exit |
| BlockQueues.BlockQueue.constructor | UWB_HHEV.OS/include/BlockQueue.h:44-52 | BlockQueue(max_size) keeps the capacity, starts empty and not exiting |
| BlockQueues.BlockQueue.ReleaseAllCV | UWB_HHEV.OS/include/BlockQueue.h:55-60 | releaseAllCV sets the exit flag and keeps the items |
| BlockQueues.BlockQueue.Size | UWB_HHEV.OS/include/BlockQueue.h:68-76 | size() is the size_t count of stored items narrowed to an int (modulo 2^32, two's complement); for a queue whose capacity is not negative that is exactly the number of stored items |
| BlockQueues.NarrowedSize | UWB_HHEV.OS/include/BlockQueue.h:68-76 | A queue with capacity -1 is bounded only by 2^64 - 1, and with 2^31 items its size() is negative |
| BlockQueues.BlockQueue.Push | UWB_HHEV.OS/include/BlockQueue.h:84-112 | push, once not full or exiting, appends the item unless exit is set, and keeps the queue within capacity |
| BlockQueues.BlockQueue.Pop | UWB_HHEV.OS/include/BlockQueue.h:114-139 | pop, once not empty or exiting, returns and removes the front item, or returns T{} on an empty queue after exit |
| UwbManager.DecodeRange | UWB_HHEV.OS/UWB_manager.cc:37-45 | Each decoded distance is below 65536 cm, so between 0 and 655.35 m, and the tag id fits a byte |
| UwbManager.DecodeTagZero | UWB_HHEV.OS/UWB_manager.cc:42-45 | The tag id is 0 exactly when byte 3 is the master marker 0x0F or 0 |
| UwbManager.DecodeFrame | UWB_HHEV.OS/UWB_manager.cc:37-45 | Decoding a frame laid out with distances in bytes 7/6, 9/8, 11/10 and a tag byte at 3 gives those distances back, and the tag byte unless it is 0x0F |
| UwbManager.FramesAppend | UWB_HHEV.OS/UWB_manager.cc:53-65 | The readings queued for reads taken in two runs are those of each run in order |
| UwbManager.FramesCount | UWB_HHEV.OS/UWB_manager.cc:57-62 | No more readings are queued than reads were made |
| UwbManager.AddAnchorBounded | UWB_HHEV.OS/UWB_manager.cc:105-115 | setAnchorPosition appends at the back exactly when fewer than 3 anchors are kept, so the list never exceeds 3 |
| UwbManager.ActivatedFills | UWB_HHEV.OS/UWB_manager.cc:87-97 | activeUWBSystem's three calls fill the list with the first defaults (0,0), (-0.5,3.65), (-4.34,1.13) up to exactly 3 |
| UwbManager.ReadStateDrains | UWB_HHEV.OS/UWB_manager.cc:68-73 | k getUWBState calls return the queued readings oldest first, then keep returning the last one taken, or the cache when none was queued |
| UwbManager.TagsFor | UWB_HHEV.OS/UWB_manager.cc:148-151 | Each tag state carries the position estimate and the tag id of the reading it was computed from |
| UwbManager.UWBManager.constructor | UWB_HHEV.OS/UWB_manager.cc:5-28 | The manager records whether the port opened, and starts with an empty queue of capacity 5 and a zero reading whose tag id is unset; a pop of its queue after exit gives `UWBData{}`, tag id 0 |
| UwbManager.UWBLocalizeSystem.constructor | UWB_HHEV.OS/UWB_manager.cc:76-79 | The system starts inactive with no anchors, an empty tag-state queue of capacity 5 whose pop after exit gives `TAGState{}` (zero, tag id 0), and a fresh manager |
| UwbManager.UWBManager.CloseUWBManager | UWB_HHEV.OS/UWB_manager.cc:30-35 | closeUWBManager clears is_serial_opened_; a second call changes nothing more |
| UwbManager.UWBManager.ProcessRawData | UWB_HHEV.OS/UWB_manager.cc:37-47 | processRawData queues exactly the decoding of the frame |
| UwbManager.UWBManager.ReadSerialData | UWB_HHEV.OS/UWB_manager.cc:49-66 | While the port is open, the loop queues the decoding of each read of exactly 16 bytes, in order, and nothing for any other read; a closed port queues nothing |
| UwbManager.UWBManager.GetUWBState | UWB_HHEV.OS/UWB_manager.cc:68-73 | getUWBState pops the oldest queued reading into the cache, or keeps the cache when the queue is empty, and returns the cache |
| UwbManager.UWBLocalizeSystem.SetAnchorPosition | UWB_HHEV.OS/UWB_manager.cc:105-115 | The anchor list becomes AddAnchor of the old list and nothing else changes |
| UwbManager.UWBLocalizeSystem.ActiveUWBSystem | UWB_HHEV.OS/UWB_manager.cc:87-103 | The list becomes the old one padded with the defaults, and the system is active when 3 anchors are then kept |
| UwbManager.UWBLocalizeSystem.ProcessMLE | UWB_HHEV.OS/UWB_manager.cc:127-152 | processMLE pushes exactly one tag state, with the estimate and the reading's tag id |
| UwbManager.UWBLocalizeSystem.CaculateTagPosition | UWB_HHEV.OS/UWB_manager.cc:117-125 | While active, each round takes a reading and queues its tag state, so the tag queue grows by the tag states of the readings taken, in order; the serial flag and the exit flags stay as they were |
| UwbManager.UWBLocalizeSystem.GetTagState | UWB_HHEV.OS/UWB_manager.cc:154-159 | getTagState pops the oldest tag state into the cache, or returns the cache unchanged when the queue is empty |
| UwbManager.UWBLocalizeSystem.Shutdown | UWB_HHEV.OS/UWB_manager.cc:81-85 | The destructor deactivates the system and closes the manager; the anchors, the cached tag state and the manager's cached reading stay as they were |
| UwbManagerPy.StitchupRange | uwb_manager.py:35-36 | stitchup gives a value from 0 to 655.35, and 0 exactly when both bytes are 0 |
| UwbManagerPy.DecodeLine | uwb_manager.py:27-36 | A line whose bytes 7 to 12 carry three distances in centimetres, low byte first, decodes to those distances in metres, in anchor order, with 0 in the fourth slot |
| UwbManagerPy.DecodedSumPositive | uwb_manager.py:27-33 | The decoded distances sum to more than 0 exactly when some byte 7 to 12 is not 0 |
| UwbManagerPy.LatestIsLastLine | uwb_manager.py:18-25 | After a run of lines, tag_distance is the decoding of the last line of exactly 16 bytes, or unchanged when there is none |
| UwbManagerPy.UWBManager.constructor | uwb_manager.py:9-16 | tag_distance starts as [0, 0, 0, 0] and the manager starts inactive |
| UwbManagerPy.UWBManager.UpdateSensorData | uwb_manager.py:18-25 | While active with the port open, each line of exactly 16 bytes replaces tag_distance with its decoding; other lines leave it unchanged |
| UwbManagerPy.UWBManager.GetUWBDistance | uwb_manager.py:38-39 | getUWBDistance returns tag_distance |
| UwbManagerPy.UWBManager.StartFetchDistance | uwb_manager.py:41-47 | startFetchDistance sets the active flag and keeps the distances |
| UwbManagerPy.UWBManager.CloseUWBPort | uwb_manager.py:49-53 | closeUWBPort clears the active flag and closes the port, which ends the update loop |
| UwbManagerPy.CloseThenUpdate | uwb_manager.py:18-19 | After closeUWBPort, updateSensorData changes nothing, whatever the port would deliver |
| UwbManagerPy.UWBLocalizationSystem.constructor | uwb_manager.py:57-65 | The system starts with anchor distances [2.1, 2.1, 1.5], angle 0, position [0, 0], and an active manager |
| UwbManagerPy.UWBLocalizationSystem.ActivateUWBManager | uwb_manager.py:67-69 | activateUWBManager starts the manager and marks the system active; every other field stays as it was |
| UwbManagerPy.UWBLocalizationSystem.SetAnchorDistance | uwb_manager.py:71-76 | const_anchor_dis becomes [a0_a1, a0_a2, a1_a2] in that order and nothing else changes |
| UwbManagerPy.CosArgument | uwb_manager.py:78-81 | caculateCosAngle raises ZeroDivisionError exactly when a distance next to the angle is 0; otherwise it raises ValueError or hands acos a value in [0, 1] |
| UwbManagerPy.CosArgumentDomain | uwb_manager.py:78-81 | For distances that are not negative, caculateCosAngle returns exactly when both distances next to the angle are positive and the third lies between their difference and their sum |
| UwbManagerPy.ZeroDistanceRaises | uwb_manager.py:87-91 | A tag at distance 0 from anchor 0 makes caculateTagPosition raise ZeroDivisionError |
| UwbManagerPy.TagAngleDomain | uwb_manager.py:87-91 | caculateTagPosition raises nothing exactly when the tag distance to anchor 0 and the anchor distances it uses are positive and both triangles close |
| UwbManagerPy.UWBLocalizationSystem.CaculateTagPosition | uwb_manager.py:87-101 | With a sum of 0 or less nothing is raised and the position is unchanged; otherwise the first exception of the two caculateCosAngle calls is raised with the position unchanged, or the position becomes tag_dis[0] times the cosine and sine of the angle; the other fields stay as they were |
| UwbManagerPy.UWBLocalizationSystem.GetTagPosition | uwb_manager.py:103-104 | getTagPosition returns tag_position |
| UwbManagerPy.UWBLocalizationSystem.CloseSystem | uwb_manager.py:117-119 | closeSystem stops the localize loop and closes the manager's port, keeping the distances, the position, the anchor distances, the base angle and the active flag |
| UwbManagerPy.PositionOnCircle | uwb_manager.py:99-100 | For a unit direction, the position set lies at distance tag_dis[0] from anchor 0 |

## Left out

- Doubles are not modelled.
  - `dumpJson(double)` with `%.17g`, the `strtod` conversion of a number with a fraction or exponent, and `numberValue` are left out.
  - A parsed double is kept as its lexeme (`Json.Double`). Dumping and comparison are stated for values that hold no double.
  - So are the comparisons between JsonDouble and JsonInt.
- JsonValues.IntValue: the truncation of a double by `intValue` is not modelled, because doubles are left uninterpreted.
- The order of `Json::Type` lives in a header that is not part of this model. `Less` takes it as a parameter, and `Trichotomy` assumes it tells the types apart.
- Pointer identity is not modelled.
  - The `shared_ptr` identity shortcut of `operator==`/`operator<` is not modelled as such; `EqualReflexive` and `LessIrreflexive` show that it agrees with the structural comparison.
  - The shared `Statics` defaults are plain values.
- `atoll` overflow on a 19-digit literal beyond the int64 range is undefined in C. The model saturates at the int64 limits, as glibc's `strtoll` does.
- Reads past the end of the input are modelled as NUL, the byte `std::string` holds at `size()`.
- `esc()`'s formatting of bytes in error messages is left out. Messages are a datatype that carries the offending bytes.
- Threads and blocking are left out.
  - In `BlockQueue`, the mutex, the condition variables and their notifications are left out. A wait becomes a precondition: push requires a queue that is not full or is exiting, and pop one that is not empty or is exiting.
  - `UwbManager.UWBManager.ReadSerialData` and `UwbManager.UWBLocalizeSystem.CaculateTagPosition` therefore require room in the queue they fill. Nothing in this model consumes from the queue concurrently.
  - Detached threads, `sleep`/`usleep`, Python daemon threads and `time.sleep` are left out. A loop that a thread runs is a method called on the sequence of inputs it would see.
- `startPop`, `isStartByCall` and the `bDelayConsume`/`delayNum` path are left out; the flag is never set. So are the destructors that delete the queues.
- JsonDump.Dump: requires a value that holds no double, because `%.17g` formatting is not modelled. JsonDump.DumpArray and JsonDump.DumpObject have the same requirement on their items.
- JsonCompare.Trichotomy: like every JsonCompare lemma, it is stated only for values that hold no double, because double comparison is not modelled.
- JsonTreeRoundTrip.DumpThenParse: stated for values with keys in map order, no double and nesting within 200. Doubles are left out because `%.17g` and `strtod` are not modelled; the order and the depth are what a parse produces and accepts.
- UwbManagerPy.ProcessRawData: requires at least 13 bytes. The Python code indexes up to byte 12 and would raise an exception on a shorter line; it is only called on 16-byte lines.
- BlockQueues.BlockQueue.Size: the narrowing of `size_t` to `int` is modelled as the modulo-2^32 conversion C++20 defines. Before C++20 that conversion is implementation-defined. Every queue the program builds has capacity 5 or 1000, so its size fits an `int`.
- Serial I/O is left out.
  - Opening a port becomes a constructor parameter (whether it opened).
  - Reads and `readline` results become a sequence of byte strings.
  - Closing the device is reduced to its flags.
- Floating-point arithmetic in the UWB layers is left out.
  - `processMLE`'s least squares, including its unchecked 1/det, is an estimate passed in.
  - The `math.acos`, `math.cos` and `math.sin` values of `caculateCosAngle`, `initMapInfo` and `caculateTagPosition` become the cosine and sine passed in. The comparison of the two angles that chooses theta is part of that input. The exceptions `caculateCosAngle` raises are modelled (`UwbManagerPy.CosArgument`).
  - The C++ `* 0.01` in `float` becomes exact division by 100.
- `startLocalizeTag`'s loop is left out. It is `initMapInfo` (floating point) and repeated `caculateTagPosition` calls, which are modelled one at a time.
  - An exception that `caculateTagPosition` raises ends that loop. The script's main block calls `startLocalizeTag` outside its `try`, so the program ends. The model returns the exception and leaves what follows to the caller.
  - `initMapInfo` calls `caculateCosAngle` on the anchor-to-anchor distances, so `UwbManagerPy.CosArgumentDomain` also says when it raises.
- UwbManagerPy.UWBManager.UpdateSensorData: while active with a closed port, the Python loop spins without reading. The model reads nothing then and does not model the spinning.
- Python's mix of `int` and `float` list entries (`[0, 0, 0, 0]` against decoded floats) is not modelled; all entries are reals.
- The remaining UWB files and the network layers around them are left out: the service provider, the loader, the pub/sub scripts and the socket server.
