# Dashboard client and capture importer: a Dafny model

This project models the core of a network-capture dashboard (static/app) and
of its capture importer (src/services). It then proves properties of that model.

- **Streams view** (`Streams`). The view polls the server for streams updated
  since a timestamp cursor and merges each batch into the streams it holds.
  It shows a content-search overlay over the live list, and it loads the
  payload of the stream the user clicks.
- **Captures view** (`Captures`). The view fetches packets since a cursor and
  appends them to the packets it holds. The server's protocol list replaces
  the old one. Search and focus work the same way as in the Streams view.
- **Shared pieces** (`Records`). These are the record summaries and details,
  the cursor rule (the largest time in the batch, or the old cursor when the
  batch is empty), and the rule that an empty query is not sent.
- **Packet sniffer status** (`SnifferStatus`). The indicator has one `online`
  flag. Status replies and failures set the flag, the `online`/`offline`
  label follows it, and the timer handle is kept for teardown.
- **Packet time cell** (`PacketTime`, with `Decimal` for integer texts).
  - The cell shows the clock label `hh:mm:ss.ffffff`, the date `dd/mm/yyyy`
    and the duration in milliseconds.
  - It is built from `padStart`/`padEnd`, `toString`, `Math.floor` and
    JavaScript's `%`.
- **Capture importer** (`PcapImport`, with `Endpoints` for the IP:port
  pattern and `HexText` for `bytes.hex()`).
  - The importer writes one row per non-empty session. The endpoints come
    from `re.findall` over the session name.
  - The payload is the session's `Raw` loads joined in order, together with
    their hex text.
  - The protocol is the first word of the session name, or `HTTP`.
  - The import returns the number of sessions, with empty sessions counted.

## Model structure

Each React component whose handlers call `setState` is a class with the same
fields as its state record, minus the layout fields. The class has:

- `State()`, which reads the fields into a value (`StreamsState`, `CapturesState`);
- one method per handler or per completion of an asynchronous request.

Each method's postcondition says the new state equals a pure step function of
the old state. The step functions state, field by field, what changes and
what does not (`r.(f := s.f, ...) == s`). The lemmas about sequences of steps
are stated over these step functions.

Requests complete in an order the model leaves open, so every step applies
in any state.

- **Streams poll snapshot.** `fetchStreams` merges into the `streams` and
  `streamsProtocols` it read when it started. `BeginPoll` therefore returns a
  `PollRequest` snapshot, and the completion step uses that snapshot.
- **Captures merge.** `fetchPackets` appends to `prevState.packets`, so the
  completion step uses the state at completion time.
- **Merge functions.** The network layer's `mergeStreams`/`mergeProtocols`
  are function-valued parameters, and the model says nothing about what
  they compute.

The importer's inner payload loop and its session loop are methods with
loops (`CollectFlow`, `ImportPcap`). Each is proved against a specification
function (`FlowBytes`/`Hex`, `ImportRows`), and the lemmas are stated about
those functions.

- **Transaction.** Rows are staged in one transaction that is committed after
  the last session. An error therefore leaves the `CaptureStore` unchanged.
- **`findall`.** `Endpoints.FindAll` is exact for this one pattern: it tries
  every start position, an octet is the whole digit run at that position,
  and the port is the whole digit run after `:`.

Where the code differs from how the system is described, the model follows the code:

- **Cursor.** The new cursor is the largest time in the batch. It is not
  combined with the old cursor, so a batch of older records moves it back
  (`Records.CursorCanMoveBack`).
- **Blank queries.** A query of blanks is sent; only the empty string is
  skipped (`Records.BlankQueryIsSent`).
- **Overlapping polls.** Nothing stops two polls from overlapping. The
  second poll's merge then discards the first one's merge
  (`Streams.OverlappingPollsLoseFirstMerge`).
- **Stale details.** A details answer is stored even when the user has
  clicked another row since (`Streams.StaleDetailsWin`, `Captures.StaleDetailsWin`).
- **Search after a poll.** After every successful poll the Streams view
  resubmits the current search (`Streams.StreamsView.OnPollSucceeded`).
- **Failed poll.** A failed poll leaves `streamsLoading` true
  (`Streams.FailedPollKeepsLoading`).
- **Captures overlay.** The Captures overlay counts as active only when it
  holds a packet (`Captures.EmptySearchAnswerShowsLive`).
- **Status teardown.** Teardown before the first status request settles
  clears no timer, and the interval installed afterwards is never cleared
  (`SnifferStatus.TeardownBeforeFirstReply`).
- **Duration rounding.** The duration uses `Math.floor`, so it rounds toward
  minus infinity, not toward zero, when the end precedes the start
  (`PacketTime.DurationMillis`).

## Model

| member | source | states |
|---|---|---|
| Records.Max | static/app/scenes/Streams/Streams.tsx:157 | `Math.max` of a non-empty list is an upper bound of the list and one of its elements |
| Records.NextCursor | static/app/scenes/Streams/Streams.tsx:156-158 | empty batch: the old cursor; otherwise the batch's largest time, attained by some record |
| Records.CursorCanMoveBack | static/app/scenes/Streams/Streams.tsx:156-158 | the cursor is not maxed with the old one: cursor 5000 and a batch at 3000 give 3000 |
| Records.CursorAdvancesOnNewerBatch | static/app/scenes/Streams/Streams.tsx:156-158 | when every record is at least as new as the cursor, the cursor does not move back |
| Records.EndTimes | static/app/scenes/Streams/Streams.tsx:157 | `map(stream => stream.end_time)`: same length, element by element |
| Records.StartTimes | static/app/scenes/Captures/Captures.tsx:140 | `map(packet => packet.start_time)`: same length, element by element |
| Records.QueryToSend | static/app/scenes/Streams/Streams.tsx:208-214 | nothing is sent exactly when the query has length 0; otherwise the query itself is sent |
| Records.BlankQueryIsSent | static/app/scenes/Streams/Streams.tsx:212 | a query of one blank is sent |
| Streams.DisplayedStreams | static/app/scenes/Streams/Streams.tsx:91 | the list shows the search results when `filteredStreams` is non-null, the live streams otherwise |
| Streams.DisplayedProtocols | static/app/scenes/Streams/Streams.tsx:92 | the protocols shown follow `filteredStreamsProtocols` being non-null |
| Streams.Snapshot | static/app/scenes/Streams/Streams.tsx:149 | a poll remembers the cursor, streams and protocols of the state it starts in |
| Streams.PollStarted | static/app/scenes/Streams/Streams.tsx:151 | starting a poll sets `streamsLoading` and changes nothing else |
| Streams.PollSucceeded | static/app/scenes/Streams/Streams.tsx:153-171 | one update sets the cursor from the batch's end times, the merged streams and protocols, and clears loading; query, overlay and focus are untouched |
| Streams.QueryChanged | static/app/scenes/Streams/Streams.tsx:203-206 | only the query changes |
| Streams.SearchAnswered | static/app/scenes/Streams/Streams.tsx:214-219 | both overlay fields are replaced wholesale; nothing else changes |
| Streams.SearchReset | static/app/scenes/Streams/Streams.tsx:223-229 | query `''` and both overlay fields null, together; nothing else changes |
| Streams.FocusRequest | static/app/scenes/Streams/Streams.tsx:188-193 | no request exactly when the held details have the clicked `rowid`; otherwise that `rowid` is requested |
| Streams.FocusStarted | static/app/scenes/Streams/Streams.tsx:190-192 | a click on the held row changes nothing; otherwise loading starts and the held details are dropped |
| Streams.FocusAnswered | static/app/scenes/Streams/Streams.tsx:194-196 | the answer is stored unconditionally and loading ends |
| Streams.StepsPreserveConsistency | static/app/scenes/Streams/Streams.tsx:148-229 | every step keeps the overlay fields null or set together and no details shown while loading |
| Streams.FailedPollKeepsLoading | static/app/scenes/Streams/Streams.tsx:148-184 | on the view, a poll begun and then failed leaves cursor, streams and protocols unchanged and `streamsLoading` true |
| Streams.OverlappingPollsLoseFirstMerge | static/app/scenes/Streams/Streams.tsx:149-168 | with two overlapping polls, the streams end up as the merge of the ORIGINAL streams with the second batch |
| Streams.PollUnderOverlayKeepsDisplay | static/app/scenes/Streams/Streams.tsx:166-170 | a poll during an active search leaves the displayed list and protocols unchanged |
| Streams.SearchAnswerSupersedes | static/app/scenes/Streams/Streams.tsx:216-219 | two answers in a row: only the second is displayed, never a union |
| Streams.ResetRestoresLiveView | static/app/scenes/Streams/Streams.tsx:223-229 | after an answer and a reset the live streams and protocols are displayed and nothing would be sent |
| Streams.LateSearchAnswerReactivatesOverlay | static/app/scenes/Streams/Streams.tsx:214-219 | an answer arriving after a reset is displayed anyway |
| Streams.ClickWhileLoadingRequestsAgain | static/app/scenes/Streams/Streams.tsx:190-193 | a second click on a row still loading issues a second request |
| Streams.ClickOnHeldRowIsNoOp | static/app/scenes/Streams/Streams.tsx:190 | once a row's details are held, clicking it changes nothing and requests nothing |
| Streams.StaleDetailsWin | static/app/scenes/Streams/Streams.tsx:192-196 | click A, click B, B answers, A answers: A's details are shown |
| Streams.StreamsView.constructor | static/app/scenes/Streams/Streams.tsx:31-43 | cursor 0, no streams or protocols, loading, overlay null, no focus and not loading it |
| Streams.StreamsView.BeginPoll | static/app/scenes/Streams/Streams.tsx:148-151 | returns the snapshot of the old state; the new state is `PollStarted` of it |
| Streams.StreamsView.OnPollSucceeded | static/app/scenes/Streams/Streams.tsx:153-174 | the new state is `PollSucceeded`; the search resubmitted afterwards is the query, or none when it is empty |
| Streams.StreamsView.OnPollFailed | static/app/scenes/Streams/Streams.tsx:175-184 | the state is left as it is |
| Streams.StreamsView.ChangeQuery | static/app/scenes/Streams/Streams.tsx:203-206 | the new state is `QueryChanged` |
| Streams.StreamsView.SubmitSearch | static/app/scenes/Streams/Streams.tsx:208-214 | returns none exactly for the empty query, the query otherwise; the state does not change |
| Streams.StreamsView.OnSearchAnswered | static/app/scenes/Streams/Streams.tsx:215-219 | the new state is `SearchAnswered` |
| Streams.StreamsView.ResetSearch | static/app/scenes/Streams/Streams.tsx:223-229 | the new state is `SearchReset` |
| Streams.StreamsView.RequestFocus | static/app/scenes/Streams/Streams.tsx:188-193 | the request is `FocusRequest` and the new state `FocusStarted` of the old state |
| Streams.StreamsView.OnFocusAnswered | static/app/scenes/Streams/Streams.tsx:194-196 | the new state is `FocusAnswered` |
| Captures.DisplayedPackets | static/app/scenes/Captures/Captures.tsx:78 | the search results are shown when there is at least one, the live packets otherwise |
| Captures.DisplayedProtocols | static/app/scenes/Captures/Captures.tsx:79 | the protocols shown are chosen by whether there are search result packets |
| Captures.PacketsFetched | static/app/scenes/Captures/Captures.tsx:131-147 | the batch is appended after the packets held (old prefix kept, lengths add up), protocols replaced, cursor from the start times; nothing else changes |
| Captures.FetchAddsEveryPacket | static/app/scenes/Captures/Captures.tsx:145 | the packets after a fetch are the old ones plus the batch as a multiset, duplicates included |
| Captures.ProtocolsAreReplaced | static/app/scenes/Captures/Captures.tsx:146 | a protocol the server no longer reports is dropped |
| Captures.FetchKeepsCursorHeld | static/app/scenes/Captures/Captures.tsx:139-145 | the cursor stays 0 or the start time of a packet the view holds |
| Captures.QueryChanged | static/app/scenes/Captures/Captures.tsx:168-171 | only the query changes |
| Captures.SearchAnswered | static/app/scenes/Captures/Captures.tsx:179-185 | both overlay fields are replaced wholesale; nothing else changes |
| Captures.SearchReset | static/app/scenes/Captures/Captures.tsx:188-194 | query `''` and both overlay fields empty; nothing else changes |
| Captures.FocusRequest | static/app/scenes/Captures/Captures.tsx:150-155 | no request exactly when the held details have the clicked `rowid` |
| Captures.FocusStarted | static/app/scenes/Captures/Captures.tsx:152-154 | a click on the held row changes nothing; otherwise loading starts and the held details are dropped |
| Captures.FocusAnswered | static/app/scenes/Captures/Captures.tsx:156-160 | the answer is stored unconditionally and loading ends |
| Captures.EmptySearchAnswerShowsLive | static/app/scenes/Captures/Captures.tsx:78-79 | an empty answer leaves live packets and live protocols displayed, whatever protocols it reports |
| Captures.SearchAnswerSupersedes | static/app/scenes/Captures/Captures.tsx:78-79 | a non-empty answer is what is displayed |
| Captures.ResetRestoresLiveView | static/app/scenes/Captures/Captures.tsx:188-194 | after an answer and a reset the live packets and protocols are displayed |
| Captures.FetchUnderOverlayKeepsDisplay | static/app/scenes/Captures/Captures.tsx:143-147 | a fetch while results are shown leaves the display unchanged |
| Captures.StaleDetailsWin | static/app/scenes/Captures/Captures.tsx:154-160 | click A, click B, B answers, A answers: A's details are shown |
| Captures.CapturesView.constructor | static/app/scenes/Captures/Captures.tsx:26-37 | cursor 0, no packets, protocols or results, no focus |
| Captures.CapturesView.BeginFetch | static/app/scenes/Captures/Captures.tsx:131-136 | the cursor sent is the state's cursor, 0 or a held packet's start time |
| Captures.CapturesView.OnPacketsFetched | static/app/scenes/Captures/Captures.tsx:136-147 | the new state is `PacketsFetched` of the state at completion time |
| Captures.CapturesView.ChangeQuery | static/app/scenes/Captures/Captures.tsx:168-171 | the new state is `QueryChanged` |
| Captures.CapturesView.SubmitSearch | static/app/scenes/Captures/Captures.tsx:173-179 | returns none exactly for the empty query, the query otherwise |
| Captures.CapturesView.OnSearchAnswered | static/app/scenes/Captures/Captures.tsx:180-185 | the new state is `SearchAnswered` |
| Captures.CapturesView.ResetSearch | static/app/scenes/Captures/Captures.tsx:188-194 | the new state is `SearchReset` |
| Captures.CapturesView.RequestFocus | static/app/scenes/Captures/Captures.tsx:150-155 | the request is `FocusRequest` and the new state `FocusStarted` of the old state |
| Captures.CapturesView.OnFocusAnswered | static/app/scenes/Captures/Captures.tsx:156-161 | the new state is `FocusAnswered` |
| SnifferStatus.PacketSnifferStatus.constructor | static/app/scenes/Captures/components/PacketSnifferStatus/PacketSnifferStatus.tsx:13-15 | the indicator starts offline with no timer |
| SnifferStatus.PacketSnifferStatus.Label | static/app/scenes/Captures/components/PacketSnifferStatus/PacketSnifferStatus.tsx:27-31 | the label is `online` exactly when the flag is set, `offline` otherwise |
| SnifferStatus.PacketSnifferStatus.OnStatusReply | static/app/scenes/Captures/components/PacketSnifferStatus/PacketSnifferStatus.tsx:52-53 | the flag becomes the reported value |
| SnifferStatus.PacketSnifferStatus.OnStatusFailure | static/app/scenes/Captures/components/PacketSnifferStatus/PacketSnifferStatus.tsx:54-55 | the flag becomes false and nothing is raised |
| SnifferStatus.PacketSnifferStatus.StartTimer | static/app/scenes/Captures/components/PacketSnifferStatus/PacketSnifferStatus.tsx:42 | the interval handle is kept; the flag is untouched |
| SnifferStatus.PacketSnifferStatus.Teardown | static/app/scenes/Captures/components/PacketSnifferStatus/PacketSnifferStatus.tsx:45-48 | a timer is cleared exactly when one was set, and it is that timer |
| SnifferStatus.TeardownBeforeFirstReply | static/app/scenes/Captures/components/PacketSnifferStatus/PacketSnifferStatus.tsx:40-48 | teardown before the first status settles clears nothing, and the interval set afterwards is left running |
| SnifferStatus.LabelFollowsLastStatus | static/app/scenes/Captures/components/PacketSnifferStatus/PacketSnifferStatus.tsx:50-57 | the label follows the reported value, then reads `offline` after a failure |
| Decimal.FromNat | static/app/components/PacketList/components/PacketTime/PacketTime.tsx:8-14 | `toString()` of a non-negative integer: canonical digits denoting the number |
| Decimal.CanonicalRoundTrip | static/app/components/PacketList/components/PacketTime/PacketTime.tsx:8-14 | every canonical digit string is the text of the number it denotes |
| Decimal.FromNatLength | static/app/components/PacketList/components/PacketTime/PacketTime.tsx:8-14 | the text of `n` has at most `k` digits exactly when `n < 10^k` |
| Decimal.LeadingZerosKeepValue | static/app/components/PacketList/components/PacketTime/PacketTime.tsx:8 | zeros put in front of a digit string keep its value |
| PacketTime.EpochMillis | static/app/components/PacketList/components/PacketTime/PacketTime.tsx:7 | the milliseconds passed to `Date` are the floor of the microseconds over 1000 |
| PacketTime.DurationMillis | static/app/components/PacketList/components/PacketTime/PacketTime.tsx:15 | the duration is the floor of the microsecond difference over 1000 |
| PacketTime.DurationNeverRoundsUp | static/app/components/PacketList/components/PacketTime/PacketTime.tsx:15 | 1999 µs reads as 1 ms and 999 µs as 0 ms |
| PacketTime.DurationOfOrderedTimes | static/app/components/PacketList/components/PacketTime/PacketTime.tsx:15 | for end ≥ start the duration is non-negative and at most the difference |
| PacketTime.MicrosRemainder | static/app/components/PacketList/components/PacketTime/PacketTime.tsx:14 | JavaScript's `%`: sign of the dividend, magnitude below 10^6, and it differs from the dividend by a multiple of 10^6 |
| PacketTime.IntToString | static/app/components/PacketList/components/PacketTime/PacketTime.tsx:14 | `toString()` of an integer: its digits, with `-` for a negative one |
| PacketTime.PadStart | static/app/components/PacketList/components/PacketTime/PacketTime.tsx:8 | length `max(len, width)`, the string at the end, fill in front |
| PacketTime.PadEnd | static/app/components/PacketList/components/PacketTime/PacketTime.tsx:14 | length `max(len, width)`, the string at the start, fill behind |
| PacketTime.Field2 | static/app/components/PacketList/components/PacketTime/PacketTime.tsx:8-13 | values of 10 or more unchanged, 0 to 9 gain one leading zero; the digits denote the value |
| PacketTime.Field2Width | static/app/components/PacketList/components/PacketTime/PacketTime.tsx:8-13 | a field below 100 is exactly two characters |
| PacketTime.SubSecondField | static/app/components/PacketList/components/PacketTime/PacketTime.tsx:14 | as written: length `max(len, 6)`, the remainder's text first and `0` behind it |
| PacketTime.SubSecondFieldMisplacesDigits | static/app/components/PacketList/components/PacketTime/PacketTime.tsx:14 | 42 µs past the second reads as `420000` |
| PacketTime.SubSecondFieldPadded | static/app/components/PacketList/components/PacketTime/PacketTime.tsx:14 | corrected: six digits denoting the microseconds past the second |
| PacketTime.ClockTextLayout | static/app/components/PacketList/components/PacketTime/PacketTime.tsx:24 | `ClockText`, `hh:mm:ss.f`: each two-character field and each separator at its fixed place |
| PacketTime.TimeLabelAsWrittenLayout | static/app/components/PacketList/components/PacketTime/PacketTime.tsx:24 | as written (`TimeLabelAsWritten`), the three two-character fields are at their fixed places and the end-padded remainder follows the `.` |
| PacketTime.TimeLabelLayout | static/app/components/PacketList/components/PacketTime/PacketTime.tsx:24 | the corrected clock label (`TimeLabel`) is 15 characters and its fraction denotes the microseconds |
| PacketTime.DateTextLayout | static/app/components/PacketList/components/PacketTime/PacketTime.tsx:19 | `DateText`, `dd/mm/yyyy`: day, month and separators at their fixed places, then the year |
| PacketTime.DateLabelShowsJanuaryAsZero | static/app/components/PacketList/components/PacketTime/PacketTime.tsx:9 | as written (`DateLabelAsWritten`), 15 January 2021 reads `15/00/2021` |
| PacketTime.DateLabelMonthIsCalendarMonth | static/app/components/PacketList/components/PacketTime/PacketTime.tsx:9 | corrected (`DateLabel`): the month field denotes a calendar month 1 to 12 |
| Endpoints.IpLengthSound | src/services/pcap_import.py:6 | a prefix `IpLength` finds is exactly `octets` octet texts accepted by the octet group, joined by dots, and a `:` follows it |
| Endpoints.IpLengthOfText | src/services/pcap_import.py:6 | the converse: accepted octets joined by dots and followed by `:` are found, with their whole length |
| Endpoints.MatchPrefixSound | src/services/pcap_import.py:6 | a match found at the front of a text (`MatchPrefix`) is the IP text, `:` and the port text; the IP text is four dotted octets, the port a non-empty digit run that no digit follows |
| Endpoints.MatchPrefixComplete | src/services/pcap_import.py:6 | the converse: four dotted octets, `:`, a non-empty digit run and then anything but a digit are one match of exactly that text |
| Endpoints.FindAllSound | src/services/pcap_import.py:58 | every element `findall` (`FindAll`) yields has four dotted octets as its IP text and a non-empty digit run as its port |
| Endpoints.ValidOctetIsDecimalByte | src/services/pcap_import.py:6 | the octet group (`ValidOctet`) accepts exactly the decimal texts of 0 to 255 |
| Endpoints.OctetIsCanonical | src/services/pcap_import.py:6 | an accepted octet has no leading zero and denotes at most 255 |
| Endpoints.DecimalByteIsOctet | src/services/pcap_import.py:6 | the decimal text of every number up to 255 is accepted |
| Endpoints.SkipNonDigits | src/services/pcap_import.py:58 | characters that are not digits in front of a text add no match |
| Endpoints.MatchEndpoint | src/services/pcap_import.py:6 | a well-formed endpoint's text, then a non-digit, is one match of exactly that text |
| Endpoints.FindAllAfterEndpoint | src/services/pcap_import.py:58 | `findall` yields that endpoint's match, then the matches of what follows |
| Endpoints.SessionNameMatches | src/services/pcap_import.py:58-62 | for `<word> <src> > <dst>` with a digit-free word, `findall` yields exactly the source, then the destination |
| Endpoints.NoDigitsNoMatch | src/services/pcap_import.py:58 | a text without digits has no match |
| HexText.HexIsHexText | src/services/pcap_import.py:74 | `bytes.hex()` (`Hex`) has two lower-case hex digits per byte |
| HexText.HexConcat | src/services/pcap_import.py:74 | the hex of joined bytes is the joined hex texts |
| HexText.HexRoundTrip | src/services/pcap_import.py:74 | reading the hex text back gives the bytes |
| PcapImport.IsHttpIffHttpPrefix | src/services/pcap_import.py:18-19 | `is_http` (`IsHttp`) holds exactly when the bytes are `HTTP` followed by anything |
| PcapImport.FirstField | src/services/pcap_import.py:77 | `split(' ')[0]`: a prefix of the name with no space, followed by a space or the end |
| PcapImport.FirstFieldOfWord | src/services/pcap_import.py:77 | a word with no space, then a space, is the first field |
| PcapImport.Protocol | src/services/pcap_import.py:77-79 | `HTTP` when the payload starts with `HTTP`; otherwise `split(' ')[0]`, the prefix of the name that has no space and is followed by a space or the end |
| PcapImport.FlowBytesConcat | src/services/pcap_import.py:65-73 | the payload (`FlowBytes`) of two flows in a row is the first's payload, then the second's |
| PcapImport.NoRawAddsNothing | src/services/pcap_import.py:70-73 | a packet without a `Raw` layer contributes nothing |
| PcapImport.CollectFlow | src/services/pcap_import.py:65-74 | the loop yields `FlowBytes`, the `Raw` loads joined in order, and exactly their hex |
| PcapImport.SplitEndpoints | src/services/pcap_import.py:58-62 | success exactly when `findall` finds two matches: the first is the source, the second the destination, and both are matches of the pattern; otherwise the import stops with the session's name |
| PcapImport.SessionRowColumns | src/services/pcap_import.py:54-97 | a row built by `SessionRow` holds the first and last packet times, the payload, its length, its hex of twice that length, the protocol and both endpoints |
| PcapImport.SessionRowOfNamedSession | src/services/pcap_import.py:58-79 | a well-named session's row holds its endpoints, and its protocol word unless the payload starts with `HTTP` |
| PcapImport.NamedSessionSplits | src/services/pcap_import.py:58-62 | a well-named session splits into its source and destination |
| PcapImport.NamedSessionFirstField | src/services/pcap_import.py:77 | a well-named session's first field is its protocol word |
| PcapImport.SessionRowOfSplit | src/services/pcap_import.py:59-62 | the endpoint columns come from the split, the protocol column from name and payload |
| PcapImport.FailurePersists | src/services/pcap_import.py:48-62 | once a session stops the import, the whole import stops with that error |
| PcapImport.RowsPerNonEmptySession | src/services/pcap_import.py:49-51 | a successful import (`ImportRows`) writes one row per non-empty session, at most one per session |
| PcapImport.RowsEqualSessionsIffNoneEmpty | src/services/pcap_import.py:49-51 | the rows number the sessions exactly when no session is empty |
| PcapImport.ImportRowsStep | src/services/pcap_import.py:48-62 | one more session fails the import when it failed before or the new session is malformed |
| PcapImport.ImportFailsIffMalformed | src/services/pcap_import.py:58-62 | the import fails exactly when some non-empty session's name holds fewer than two IP:port texts |
| PcapImport.WellNamedSessionsImport | src/services/pcap_import.py:58-62 | sessions whose names carry two well-formed endpoints import without error |
| PcapImport.CaptureStore.constructor | src/services/pcap_import.py:32-46 | a fresh table holds no rows |
| PcapImport.ImportPcap | src/services/pcap_import.py:48-104 | success exactly when the specification succeeds, returning the session count with the rows appended; on error the table is unchanged |

## Left out

- Rendering and layout are not modelled. This covers JSX, the antd
  components, `tableHeight` and the panel dimensions, `updateTableHeight`
  and the content of `notification.error`. They are presentation only.
- Timers and the event loop are not modelled. This covers `setInterval`,
  `clearInterval`, `componentDidMount`/`componentWillUnmount` of both views
  and promise scheduling. Each request completion is a separate step, in
  any order. The status indicator's timer handle is kept, as `StartTimer`
  and `Teardown`, to show the leak at teardown.
- The network layer (`net/api`) is not modelled. This covers the request
  functions, `apiUtils.mergeStreams` and `apiUtils.mergeProtocols`. Their
  answers are step inputs and the merges are uninterpreted function
  parameters, so nothing is proved about de-duplication by the merge.
- The Captures view has no failure handler for its requests, and neither do
  the Streams view's search and details requests (Streams.tsx:193-196,
  214-220). A request that rejects produces no step, so the state does not
  change, and the unhandled rejection itself is not modelled. A failed
  details request therefore leaves `focusedStreamLoading` (or
  `focusedPacketLoading`) true and no details held, until the next click
  requests them again (`Streams.ClickWhileLoadingRequestsAgain`).
- IpLength, MatchPrefix and FindAll: their own postconditions give only the
  shape of the result. What a found prefix or match is, and that every
  element of `findall` is a match, are the lemmas IpLengthSound,
  MatchPrefixSound and FindAllSound. As postconditions they make the
  importer's proofs too costly.
- The packet library (`sniff`, `TCPSession`) and SQLite are not modelled.
  This covers the connection, `CREATE TABLE` and `close`.
  - Sessions are given as values, in the order of `sessions().items()`.
  - The table is a `CaptureStore` of committed rows.
  - The inserts are staged and the commit appends them.
  - An exception skips the commit, and the model leaves the store unchanged.
- PcapImport.CaptureRow: stores the ports as text. SQLite's INTEGER column
  affinity, which turns them into numbers, is not modelled.
- `sizeof_fmt` and the `data_length_string` column are left out. They are
  floating-point formatting.
- The timestamps `math.floor(time * 1000000)` are integer inputs (`SessionPacket.time`).
  The float conversion is left out.
- JavaScript `Date` is not modelled: the local-time decomposition and
  `getFullYear`, `getMonth`, `getDate`, `getHours`, `getMinutes` and
  `getSeconds`. That depends on the time zone, so the calendar fields are
  inputs.
- PacketTime.IntToString: does not model the exponent form that
  `toString()` uses from 10^21 up.
- Integers are unbounded. JavaScript's 2^53 precision limit is not
  modelled, and neither is Python's arbitrary precision (which nothing
  here needs).
- Character strings are sequences of `char`. Python's and JavaScript's
  string encodings are not modelled.

## Findings

| source | as written | input that shows it | evidently intended | confidence | as-written member | corrected member |
|---|---|---|---|---|---|---|
| static/app/components/PacketList/components/PacketTime/PacketTime.tsx:14 | the microsecond remainder is padded at the end (`padEnd(6, '0')`) | start time 1000042 µs: the fraction reads `420000` instead of `000042` | pad at the front, so that the six digits denote the microseconds | high, not executed | PacketTime.SubSecondFieldMisplacesDigits | PacketTime.SubSecondFieldPadded |
| static/app/components/PacketList/components/PacketTime/PacketTime.tsx:9 | the month field is `getMonth()`, which counts from 0 | 15 January 2021: the date reads `15/00/2021` | show the calendar month, `getMonth() + 1` | high, not executed | PacketTime.DateLabelShowsJanuaryAsZero | PacketTime.DateLabelMonthIsCalendarMonth |
