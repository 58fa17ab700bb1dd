# Shimter device link and dashboard rules, in Dafny

This project models the part of the Shimter web front end that talks to the
Arduino sensor board, plus two small pure rules of the dashboard page.

- **Line framing and CSV decoding** (`framing.dfy`, `sensor_decoder.dfy`,
  `js_text.dfy`). Both transport adapters (`ArduinoSerial.processData` and
  `ArduinoBluetooth.handleData`) run the same code:
  - append the incoming text to a buffer;
  - split it on `'\n'` and keep the last piece as the new buffer;
  - skip empty pieces;
  - trim each remaining piece and split it on `','`;
  - with exactly four fields, run each through `parseInt(_, 10)`;
  - if none is NaN, call the data handler with moisture clamped to [0, 100].

  The model has one `LineFramer` class with the `buffer` and `handler` fields.
  A ghost log `emitted` of `Call(handler, reading)` records every handler call.
  `Split`, `Join`, `trim` and `parseInt` follow the JavaScript string
  built-ins. `parseInt` follows section 19.2.5 of ECMA-262: skip leading
  white space, take an optional sign, take the longest run of decimal digits,
  and give NaN when there is no digit.
- **The Web Serial adapter** (`serial.dfy`). `ArduinoSerial` holds the
  `port`, `reader`, `writer` and `isReading` handles and the shared framer.
  The browser calls become inputs:
  - `connect` takes whether `navigator.serial` exists, the port the user
    picked (or the rejection), and the rejection of `open`;
  - `readLoop` takes the sequence of settled `reader.read()` results.
- **The Web Bluetooth adapter** (`bluetooth.dfy`). This covers:
  - the three-step `requestDevice` fallback, with the browser's answer to
    each request given as a function;
  - the service/characteristic selection, as a loop-based method proved
    equal to a pure specification;
  - the error-message mapping;
  - `connect` and `disconnect` on the `device` and `characteristic` fields.
- **Dashboard** (`dashboard.dfy`):
  - the plant table;
  - `statusFromRange`, which rates a value against a `{min, max}` range as
    good, warning or critical;
  - `calculateRecommendations`;
  - the `handleSensorData` field copy;
  - the sample data shown before any reading arrives.
- **Alert card** (`alert_card.dfy`): the stable priority sort of the alerts,
  and the placeholder shown when there are none.

The serial `connect` always calls `requestPort`, and the read loop ends on
`done` or on a read error; there is no reopen or back-off.

One observation about the sample data. The sample rates every sensor "good"
for every plant. The rating rule agrees for strawberry and tomato. For lettuce,
the sample temperature 22.5 lies above the range [15, 22], and the rule itself
would rate it a warning (`Dashboard.SampleAgreesWithRule`). The sample is
fixed display data, so this is recorded here rather than as a defect.

## Model

| member | source | states |
|---|---|---|
| JsText.Split | src/lib/serial.ts:104 | `split` returns at least one piece, and no piece contains the separator |
| JsText.SplitCount | src/lib/serial.ts:104 | n separators in the text give exactly n + 1 pieces |
| JsText.JoinSplit | src/lib/serial.ts:104 | joining the pieces with the separator gives back the text |
| JsText.SplitJoin | src/lib/serial.ts:104 | splitting a join of separator-free pieces gives back those pieces |
| JsText.SplitAppend | src/lib/serial.ts:101-104 | the pieces of x + y are the pieces of x without its last one, followed by the pieces of that last piece + y |
| JsText.TrimStart | src/lib/serial.ts:118 | the result is a suffix of the text; what was removed is white space; the result starts with non-white space or is empty |
| JsText.Trim | src/lib/serial.ts:118 | `trim` never lengthens the text, and its result neither starts nor ends with white space |
| JsText.TrimEnd | src/lib/serial.ts:118 | the result is a prefix of the text; what was removed is white space; the result ends with non-white space or is empty |
| JsText.TrimIsCore | src/lib/serial.ts:118 | `trim` removes exactly the leading and trailing white space (including `'\r'`) and keeps the middle |
| JsText.TrimStartSkips | src/lib/serial.ts:118 | leading white space never changes what remains after trimming the start |
| JsText.ExcludesByChar | src/lib/serial.ts:55 | `includes(t)` is false when some character of t does not occur in the text |
| JsText.IncludesMiddle | src/lib/serial.ts:55 | a text includes every substring placed inside it |
| JsText.ParseInt | src/lib/serial.ts:123-126 | `parseInt(_, 10)`: leading white space, an optional sign, then the longest run of decimal digits, NaN when that run is empty; its properties are the `ParseInt*` lemmas below |
| JsText.DigitPrefix | src/lib/serial.ts:123-126 | `parseInt` reads the longest run of decimal digits: a prefix made of digits that is followed by a non-digit or by the end |
| JsText.ParseDigits | src/lib/serial.ts:123-126 | a digit run gives a number exactly when it starts with a digit |
| JsText.ParseIntNaN | src/lib/serial.ts:136-141 | `parseInt` is NaN exactly when no digit follows the leading white space and optional sign |
| JsText.ParseIntSkipsWhiteSpace | src/lib/serial.ts:123-126 | leading white space does not change the parsed value |
| JsText.ParseIntDecimal | src/lib/serial.ts:123-126 | `parseInt` inverts decimal rendering of any integer, whatever non-digit text follows |
| JsText.ParseIntDigits | src/lib/serial.ts:123-126 | a digit string followed by non-digits parses to the value of the digits, leading zeros included |
| JsText.ParseIntNegative | src/lib/serial.ts:123-126 | a minus sign before digits gives the negated value |
| JsText.ParseIntPlus | src/lib/serial.ts:123-126 | a plus sign before digits keeps their value |
| JsText.ParseIntExamples | src/lib/serial.ts:116-126 | "050" is 50, " 25" is 25, "12abc" is 12, "-10" is -10, and "" and "abc" are NaN |
| SensorDecoder.ClampMoisture | src/lib/serial.ts:143 | `max(0, min(100, m))`: the result is in [0, 100], equals m inside, and is 0 below and 100 above |
| SensorDecoder.DecodeLine | src/lib/serial.ts:118-152 | a line yields a reading iff its trimmed text splits into exactly four fields that all parse; moisture is clamped and the other three fields are passed through |
| SensorDecoder.DecodedMoistureInRange | src/lib/serial.ts:142-147 | every decoded moisture lies in [0, 100] |
| SensorDecoder.DecodeEncodeLine | src/lib/serial.ts:116-147 | decoding the CSV rendering of a reading gives the reading back, with moisture clamped |
| JsText.TrimCarriageReturn | src/lib/serial.ts:118 | `trim` gives the same text for a line with and without a trailing `'\r'`, blank lines included |
| SensorDecoder.DecodeIgnoresCarriageReturn | src/lib/serial.ts:118 | a trailing `'\r'` (a CRLF line end) does not change the decoded reading |
| SensorDecoder.WrongFieldCountDropped | src/lib/serial.ts:122 | a line without exactly four fields yields no reading |
| SensorDecoder.BlankLineDropped | src/lib/bluetooth.ts:228-235 | a white-space-only line such as `"\r"` passes the length check but yields no reading |
| Framing.Complete | src/lib/serial.ts:104-107 | the complete lines are the pieces before the last one, none containing `'\n'` |
| Framing.Rest | src/lib/serial.ts:107 | the kept fragment contains no `'\n'` |
| Framing.Calls | src/lib/serial.ts:152 | with no handler set there are no calls; with one set there is one call per reading, and call i carries reading i for that handler |
| Framing.CallsAppend | src/lib/serial.ts:109-152 | the calls for two runs of readings are the calls for each, in order |
| Framing.RejoinPieces | src/lib/serial.ts:101-107 | rejoining the complete lines and the kept fragment with `'\n'` gives back buffer + chunk exactly |
| Framing.RestAfterLastNewline | src/lib/serial.ts:104-107 | the kept fragment is the whole text when there is no `'\n'`, and otherwise the text after the last `'\n'` |
| Framing.FramingAppend | src/lib/serial.ts:101-107 | framing s + t gives the lines of s followed by the lines of (fragment of s) + t, and the same fragment |
| Framing.ReadingsAppend | src/lib/serial.ts:109-152 | the readings of two runs of lines are the readings of each, in order |
| Framing.FeedTwice | src/lib/serial.ts:96-172 | two chunks fed one after the other leave the same buffer and readings as their concatenation fed at once |
| Framing.CallsFeedTwice | src/lib/serial.ts:96-172 | two chunks fed one after the other produce the same handler calls as their concatenation fed at once |
| Framing.LineReadings | src/lib/serial.ts:110-152 | one complete line yields at most one reading |
| Framing.LineCalls | src/lib/serial.ts:142-152 | at most one reading gives one call carrying it when a handler is set, and none otherwise |
| Framing.LineReadingsDecodable | src/lib/serial.ts:110-152 | a complete line produces a call iff it is decodable, and then exactly one |
| Framing.ReadingsMoistureInRange | src/lib/serial.ts:142-147 | every reading passed to the handler has moisture in [0, 100] |
| Framing.LineFramer.constructor | src/lib/serial.ts:7-14 | a new framer has an empty buffer, no handler and no calls |
| Framing.LineFramer.SetHandler | src/lib/serial.ts:174-184 | the handler is replaced; the buffer and the call log are unchanged |
| Framing.LineFramer.HandleLine | src/lib/serial.ts:110-152 | an empty line is skipped; any other line appends the calls for its decoded reading, if any |
| Framing.LineFramer.HandleLines | src/lib/serial.ts:109-171 | lines are handled in order, appending exactly the calls for their readings |
| Framing.LineFramer.Feed | src/lib/serial.ts:96-172 | the new buffer is the fragment after the last `'\n'` of buffer + chunk; the log grows by the calls for the complete lines, in order; the handler is unchanged |
| Serial.SerialConnectError | src/lib/serial.ts:53-65 | "No port selected" maps to the cancel message, else "not supported" maps to the browser message, else the message is rethrown unchanged |
| Serial.ApiMissingReported | src/lib/serial.ts:17-19 | a missing `navigator.serial` is reported with the browser-support message |
| Serial.NotReadableReported | src/lib/serial.ts:47-49 | the not-readable error passes through the mapping unchanged |
| Serial.SerialConnectErrorIdempotent | src/lib/serial.ts:53-65 | mapping an already mapped message changes nothing |
| Serial.ReadsTaken | src/lib/serial.ts:75-88 | the loop takes at most all of the results |
| Serial.ReadsTakenStopsAtFirstEnd | src/lib/serial.ts:75-93 | the loop takes every result before the first done or failed read, plus that read when there is one |
| Serial.ArduinoSerial.constructor | src/lib/serial.ts:3-14 | a new adapter holds no port, reader or writer, is not reading, and its framer is empty |
| Serial.ArduinoSerial.IsConnected | src/lib/serial.ts:219-221 | connected iff both a port and a reader are held; a successful `Connect` establishes it and `Disconnect` ends it |
| Serial.ArduinoSerial.SetDataHandler | src/lib/serial.ts:174-184 | the handler is replaced; the buffer and the call log are unchanged; the adapter invariant is kept |
| Serial.ArduinoSerial.Connect | src/lib/serial.ts:16-67 | the failure paths with the mapped message and unchanged handles; success iff the API exists, a port is picked, `open` succeeds and the port is readable; then the adapter is connected and `isReading`; the writer is taken when the port is writable |
| Serial.ArduinoSerial.ProcessData | src/lib/serial.ts:96-172 | as `Feed`, on the adapter's framer |
| Serial.ArduinoSerial.ReadLoop | src/lib/serial.ts:69-94 | without a reader, or when not reading, nothing is read; otherwise the chunks up to the first done or failed read are fed in order, and the buffer and call log are those of their concatenation |
| Serial.ArduinoSerial.Disconnect | src/lib/serial.ts:186-221 | `isReading` is false and every handle is null, whatever the close calls do, so `isConnected()` is false; the adapter invariant is kept |
| Bluetooth.RequestDevice | src/lib/bluetooth.ts:24-57 | success iff some of the three requests succeeds; the first success is used; a failure is the third request's |
| Bluetooth.RequestsShareOptionalServices | src/lib/bluetooth.ts:26-56 | all three requests ask for the same optional services |
| Bluetooth.FindUuid | src/lib/bluetooth.ts:85-92 | `getPrimaryService(uuid)` and `getCharacteristic(uuid)`: the element found has the UUID asked for; none is found iff no element has it |
| Bluetooth.FindUuidFirst | src/lib/bluetooth.ts:85-92 | the element found is the first one with the UUID |
| Bluetooth.FirstUsable | src/lib/bluetooth.ts:104-110 | the first read/notify/indicate characteristic, and none iff there is no such characteristic |
| Bluetooth.ServiceUuids | src/lib/bluetooth.ts:156 | the discovered UUIDs, one per service, in order |
| Bluetooth.DiscoveredChoice | src/lib/bluetooth.ts:125-149 | a discovery-phase error is the listing error of one of the discovered services |
| Bluetooth.Selection | src/lib/bluetooth.ts:77-158 | a choice of the known-UUID phase is final; every selection error is either the no-service message or a service's listing error |
| Bluetooth.SelectCharacteristic | src/lib/bluetooth.ts:77-158 | the two loops with `break`/`continue` compute exactly the selection rule |
| Bluetooth.SelectionSound | src/lib/bluetooth.ts:77-158 | a selected characteristic always belongs to a discovered service |
| Bluetooth.KnownChoiceSound | src/lib/bluetooth.ts:83-122 | the known-UUID phase only picks characteristics of discovered services |
| Bluetooth.DiscoveredChoiceSound | src/lib/bluetooth.ts:128-149 | the discovery phase only picks usable characteristics of discovered services |
| Bluetooth.DiscoveredChoiceComplete | src/lib/bluetooth.ts:128-149 | the discovery phase finds nothing iff no discovered characteristic is usable |
| Bluetooth.SelectionPrefersSerialCharacteristic | src/lib/bluetooth.ts:83-94 | when the first `ffe0` service offers `ffe1`, that characteristic is selected |
| Bluetooth.ServiceChoiceFallback | src/lib/bluetooth.ts:89-116 | a known service yields `ffe1` when it lists it; otherwise its first usable characteristic, or `characteristics[0]` when none is usable; nothing when it lists none or the listing fails |
| Bluetooth.KnownChoiceSkips | src/lib/bluetooth.ts:83-122 | a known UUID without a service, or whose first service lists no characteristic or cannot list them, passes the search to the next UUID |
| Bluetooth.KnownChoiceInOrder | src/lib/bluetooth.ts:83-122 | the known UUIDs are tried in order: a later one is consulted only when every earlier one yields nothing |
| Bluetooth.SerialServiceBeforeSpp | src/lib/bluetooth.ts:77-83 | the SPP service is tried only when the `ffe0` service yields nothing |
| Bluetooth.DiscoveredChoiceFirst | src/lib/bluetooth.ts:125-149 | the discovery phase stops at the first service, in discovery order, with a usable characteristic, and takes that service's first usable one; a listing error of an earlier-reached service ends it with that error; it finds nothing iff it passes over every service |
| Bluetooth.SelectionFallsBackToDiscovery | src/lib/bluetooth.ts:124-158 | when the known UUIDs yield nothing, a selection is the first usable characteristic of the first service not passed over; if every service is passed over the error lists every discovered UUID; otherwise the error is the listing error of the first service not passed over |
| Bluetooth.SelectionWithoutKnownServices | src/lib/bluetooth.ts:124-158 | without known services, a usable characteristic is selected when one exists; otherwise the error lists every discovered UUID |
| Bluetooth.GattFailure | src/lib/bluetooth.ts:200-205 | the GATT message contains the original message |
| Bluetooth.BluetoothConnectError | src/lib/bluetooth.ts:183-209 | "Unsupported device" or "NetworkError" gives the classic-Bluetooth guidance, else "No device selected" gives the cancel message, else "GATT" wraps the message, else it is rethrown unchanged |
| Bluetooth.BleApiMissingUnchanged | src/lib/bluetooth.ts:16-18 | a missing `navigator.bluetooth` is rethrown with its own message, which matches none of the phrases |
| Bluetooth.GattMissingReported | src/lib/bluetooth.ts:60-63 | a device without a GATT server is reported through the GATT message |
| Bluetooth.ArduinoBluetooth.constructor | src/lib/bluetooth.ts:3-12 | a new adapter holds no device or characteristic, and its framer is empty |
| Bluetooth.ArduinoBluetooth.IsConnected | src/lib/bluetooth.ts:289-291 | connected iff a device is held and reports itself connected; `Disconnect` ends it |
| Bluetooth.ArduinoBluetooth.SetDataHandler | src/lib/bluetooth.ts:267-276 | the handler is replaced; the buffer and the call log are unchanged |
| Bluetooth.ArduinoBluetooth.HandleData | src/lib/bluetooth.ts:213-265 | as `Feed`, on the adapter's framer |
| Bluetooth.ArduinoBluetooth.Connect | src/lib/bluetooth.ts:14-211 | fails exactly when a step fails, with the mapped message; the device is stored once the GATT server is reached, and the characteristic once one is selected; success stores both |
| Bluetooth.ArduinoBluetooth.Disconnect | src/lib/bluetooth.ts:278-291 | a rejected `stopNotifications` propagates and clears nothing; otherwise both fields become null and `isConnected()` is false, also on a never-connected adapter |
| AlertCard.Rank | src/components/dashboard/alert-card.tsx:47 | ranks are in 1..3, with high 3 and low 1 |
| AlertCard.Compare | src/components/dashboard/alert-card.tsx:48 | the comparator is negative iff `a` outranks `b`, and zero iff they have the same priority |
| AlertCard.CompareConsistent | src/components/dashboard/alert-card.tsx:46-49 | the comparator is antisymmetric and transitive |
| AlertCard.SortAlerts | src/components/dashboard/alert-card.tsx:46-49 | the sorted copy has as many alerts as the input |
| AlertCard.SortAlertsPermutes | src/components/dashboard/alert-card.tsx:46 | the sorted copy is a permutation of the alerts |
| AlertCard.SortAlertsSorted | src/components/dashboard/alert-card.tsx:47-48 | no alert in the sorted copy is directly followed by one of higher priority |
| AlertCard.SortedInOrder | src/components/dashboard/alert-card.tsx:47-48 | in a sorted list every high alert precedes every medium one, and every medium one precedes every low one |
| AlertCard.SortAlertsStable | src/components/dashboard/alert-card.tsx:46-49 | alerts of equal priority keep their input order |
| AlertCard.SortAlertsGroups | src/components/dashboard/alert-card.tsx:45-49 | the sorted copy is the high alerts, then the medium, then the low, each group in input order |
| AlertCard.Render | src/components/dashboard/alert-card.tsx:34-49 | the placeholder "no alerts" card appears iff there are no alerts; otherwise the listing has all of them |
| AlertCard.RenderSorted | src/components/dashboard/alert-card.tsx:46-59 | a listing shows exactly the given alerts, highest priority first |
| Dashboard.Conditions | src/routes/dashboard.tsx:28-51 | every configured range has min < max |
| Dashboard.NeedsAction | src/routes/dashboard.tsx:96-99 | the out-of-range text differs from the in-range text and names the direction |
| Dashboard.StatusFromRange | src/routes/dashboard.tsx:85-101 | good iff min <= current <= max; the good text iff good; "낮습니다" below min and "높습니다" above max; for a non-empty range, critical iff the distance to the range exceeds a fifth of its width |
| Dashboard.GapPositiveOutside | src/routes/dashboard.tsx:92-93 | the distance is min - current below the range and current - max above it, positive outside and zero exactly inside |
| Dashboard.StatusMonotone | src/routes/dashboard.tsx:92-95 | a value farther from the range is never rated less severely |
| Dashboard.HandleSensorData | src/routes/dashboard.tsx:63-69 | the four fields are stored unchanged |
| Dashboard.Recommend | src/routes/dashboard.tsx:114-134 | a recommendation holds the current value and the range; it is good iff the value is in range, with the good-range text exactly then; for a non-empty range it is critical iff five times the gap exceeds the width; below the range the action says too low, above it too high |
| Dashboard.CalculateRecommendations | src/routes/dashboard.tsx:77-140 | the sensors echo the input, there are no alerts, the weather is the local placeholder, and each sensor's current value and optimal range are the reading's field and the selected plant's range |
| Dashboard.AllGoodIffInRange | src/routes/dashboard.tsx:103-135 | every recommendation is good iff every reading lies in the plant's range |
| Dashboard.DecodedMoistureShown | src/routes/dashboard.tsx:56-69 | a reading decoded from the device shows a moisture in [0, 100] |
| Dashboard.SampleDashboard | src/routes/dashboard.tsx:143-194 | before any reading, all four sensors are marked good with the selected plant's ranges, and there are no alerts |
| Dashboard.Displayed | src/routes/dashboard.tsx:143-197 | the page shows the sample, all good, until a reading is stored; then that reading, all good iff each value lies in the plant's range; the ranges shown are the selected plant's in both cases |
| Dashboard.SampleAgreesWithRule | src/routes/dashboard.tsx:143-194 | the sample's ratings agree with the rule for strawberry and tomato; for lettuce the rule rates the sample temperature a warning |

## Left out

- Browser device APIs are not modelled. Some outcomes are inputs:
  - on the Bluetooth side: `navigator.bluetooth`, `requestDevice`, GATT
    `connect`, `getPrimaryServices()`, each service's `getCharacteristics()`,
    and `startNotifications`/`stopNotifications`;
  - on the serial side: `navigator.serial`, `requestPort`, `open` and `read`.
- Two assumptions replace the remaining browser calls:
  - `getPrimaryService(uuid)` and `getCharacteristic(uuid)` are not
    independent inputs. They are derived from the single
    `getPrimaryServices()` list and from each service's `getCharacteristics()`
    result, through `FindService` and `FindCharacteristic`. `SelectionSound`
    relies on this coupling; a browser that answers the two kinds of call
    inconsistently is not modelled.
  - On the serial side, `getReader` and `getWriter` always succeed. The
    outcomes of `cancel`, `releaseLock` and `close` are not represented at
    all; the source catches and ignores them.
- The options passed to `port.open` (a baud rate of 38400) are not modelled;
  only the outcome of `open` is an input.
- `TextDecoder` (UTF-8 decoding, including the streaming mode of the serial
  reader). Chunks are text already.
- Event-loop concurrency:
  - The BLE `characteristicvaluechanged` listener and its `readValue()`
    promises can complete in any order. The model feeds chunks in a given
    order.
  - The serial `readLoop` is started inside `connect` without being awaited.
    The model runs it as a separate call after `connect`.
  - A `disconnect` during a pending read appears only as that read resolving
    done or failing.
- The per-line `try/catch` around the handler call and all `console.*`
  logging. The handler is an identity (`HandlerId`), and calls are recorded
  in the ghost log rather than executed.
- JavaScript number limits. `parseInt` of very long digit runs loses
  precision or gives Infinity in JavaScript; the model uses unbounded integers.
  JavaScript's `parseInt("-0")` is the number -0, which the model gives as 0;
  the page shows both as 0.
- Timestamps (`new Date()`), which are clock reads.
- Values thrown that are not `Error` objects. The model treats every failure
  as an `Error` with a message.
- `device.disconnect()` affects the remote device, and the browser may change
  the server's `connected` flag later. The model drops the handle and reads
  `connected` as stored.
- The dashboard's React state, the plant `Select`, and the loading branch,
  which `useMemo` never reaches.
- Presentation: icons, labels, CSS and card layout. The alert card's list
  and placeholder texts are kept.
- Dashboard.StatusFromRange: the source compares `distance > (max - min) * 0.2`
  in double-precision arithmetic, and the model compares
  `5 * distance > max - min` exactly in `real`. For the integer readings the
  decoder produces and the integer ranges of the plant table, the two agree,
  because the rounded product can never cross an integer.
- Dashboard.StatusFromRange: the severity clause is stated only for ranges
  with min <= max. Every configured range satisfies this (`Conditions`).
- Serial.ArduinoSerial.ReadLoop: JavaScript's truthiness of a present but
  empty `Uint8Array` is modelled as a chunk with empty text. `NoValue` stands
  for a result with neither value nor done.
