# Air-quality network: a model and its proofs

A Dafny model of the parts of the air-quality network that have to agree with one
another although they run apart: the sensor node and its host simulator (C), the
codec and the ingestion service (TypeScript), the traffic simulator and the live
dashboard (TypeScript). `dafny verify dfyconfig.toml` checks all of it.

Code that changes state step by step is a class or a method with the fields, loops
and branches of the original, proved against a function on values. What the system
promises is then proved about those functions, over every input and over every run:
a run is any finite sequence of events, so that all interleavings, losses, failures
and power cuts are covered.

| files | what they model |
|---|---|
| `Bytes`, `Downlink`, `NodeState`, `Payload`, `ConfigStore` | the node's portable core and its flash record |
| `Board`, `BoardRuns` | one wake of the board; every run of it |
| `TelemetryCodec`, `CodecAgreement` | the server's codec; C and TypeScript on one wire |
| `Ingestion`, `System` | the server's stores under overlapping calls; nodes, lossy network and server together |
| `Base64`, `HostText`, `HostSim`, `HostRefinesBoard` | the host build over its text file; its refinement of the board |
| `SimQueue`, `SimRestart` | the simulator's per-device queue and timer; its restart over kept state files |
| `LiveStore`, `SensorLookup`, `Connection`, `CitySeries`, `MapLimit` | the dashboard's asynchronous store and worker pool |
| `Aqi`, `DashboardAqi`, `Csv` | the server's air quality index, the dashboard's copy of it, and the CSV export |

## What was found

Most promises hold as they are stated in the repository. Where one does not, the
exact condition is proved, together with the input that breaks it.

- **A setting can be lost with its save.** The node's README asks the operator to send
  the command again when no report arrives; the report does arrive, and a repeated
  command equals the setting in force, so nothing is written
  (`BoardRuns.RepeatingACommandNeverSavesIt`). At the end of
  the wake that saves them, the settings in force would survive a power cut exactly if
  the save worked, left the whole new record, or left something else that means the same
  (`BoardRuns.SettingSurvivesIff`, `FailedSaveLosesTheSetting`); and the next save that
  works keeps them, whatever failed before (`BoardRuns.Durability`).
- **A failed read at a cold boot brings settings back later.** The node then runs on
  defaults over a good record, with no failed save to show for it, and the next power
  cut changes its settings; RAM and flash are in step after a quiet cold boot exactly if
  the read worked, the store was erased or holds the defaults
  (`BoardRuns.ColdBootInStepIff`, `FailedReadComesBack`).
- **The latest-value cache need not hold the last reading, nor the newest.** Uplinks are
  not awaited, so an earlier one may write the cache after a later one
  (`Ingestion.EarlierMayStayLatest`). A reading that arrives is certain to stay exactly
  if no other reading of its sensor is on its way (`Ingestion.LastArrivalWinsIff`), and
  the newest is certain to exactly if every reading on its way is a newest one
  (`Ingestion.NewestWinsIff`).
- **The two payload encoders differ** on temperatures whose hundredfold is a negative
  half inside the int16 range, such as -0.005, and nowhere else
  (`CodecAgreement.EncodersAgree`, `EncodersPartAtAHalf`).
- **A one-column CSV loses its last row if that is empty**, and one without columns is
  not read back; no other table with clean headers loses anything
  (`Csv.ReadUndoesExportIff`, `EmptyLastRowIsLost`, `NoColumns`).
- **`mapLimit` with a limit of 0** resolves at once to an array of holes
  (`MapLimit.CompleteUnlessLimitIsZero`, `MapLimit.Run`).
- **A failed wide history request hides narrower ones** (`CitySeries.FailedWideHidesNarrow`).
  What is shown covers the recorded range exactly if that was last set by an answer and
  not by a failure (`CitySeries.CoversItsRangeIff`); over runs with polite requests only,
  exactly if a widest request succeeded (`CitySeries.WidestSucceededIff`). Nothing
  changes until a wider range or a refresh is asked for
  (`CitySeries.StaysUntilWiderOrForced`).
- **A forced refresh can take a wider range away again**
  (`CitySeries.ForcedRefreshMayNarrow`). No answer can narrow the range exactly if no
  forced request is narrower than what is recorded or under way (`CitySeries.SafeIff`),
  and a run stays so exactly if each request is made so (`CitySeries.PoliteIff`): a
  refresh while nothing wider is under way, a wider range while no refresh is.
- **`stop` during an outage** leaves `polling` or `reconnecting` with no timer armed
  (`Connection.StopIsCleanUnlessDown`, `StoppedWhilePolling`).
- **A live reading can be missing from the history on screen** in two ways: it came
  before the sensor's first history response (`LiveStore.FirstResponseIsTheHistory`,
  `LiveReadingIsLost`), or a poll or resync had brought it to the picture first
  (`LiveStore.PolledPushIsLost`). Which readings are on screen at the end of a run is
  stated exactly (`LiveStore.OnScreenIff`).
- **A response that runs ahead of the picture can put a history out of order**: the
  histories stay ordered through a run exactly if each response is and each push is newer
  than what its history then ends with (`LiveStore.AlwaysOrderedIff`).
- **The live picture converges exactly if no sensor has two newest readings**
  (`LiveStore.ConvergesIff`).
- **A restart of the simulator can pass its nodes by**: it is a power cycle for a node
  exactly if the first wake's firmware call works (`SimQueue.PowerCycleSeenIff`,
  `SimRestart.RestartIsLost`, `SimQueue.RestartMayBeMissed`).
- **Two wakes of a simulated node can follow each other without a sleep**
  (`SimQueue.WakesMayRunBackToBack`), unless no delivery schedules while a wake is queued
  behind it and the device is started before any timer runs: exactly then at most one
  wake is ever queued, running or timed (`SimQueue.OneWakeIff`).
- **`--downlink` takes more than hex**: `5g-1` is two bytes (`HostText.LooseHexIsAccepted`).
  A string is taken exactly if it is even, fits, and at every second character there is,
  after white space, a sign and a hex digit, or a hex digit that begins no bare `0x`
  (`HostText.ParsedIff`).

## Model

| member | source | states |
|---|---|---|
| BoardRuns.EveryRunKeepsInv | firmware/src/main.cpp:97-131 | from any flash contents, through any wakes, downlinks, radio and flash failures and power cuts, the node's config is valid, every sleep is in range, flash matches RAM unless the last access failed, and a node with nothing pending has reported what it runs |
| BoardRuns.ConfigAlwaysValid | firmware/core/aq_config.c:5-33 | a corrupt record or a bad command never puts a running node outside the accepted ranges |
| BoardRuns.LastReportIsCurrent | firmware/src/main.cpp:85-131 | a node asleep with no report pending has built a report, and the last one is the encoding of its present state |
| BoardRuns.Durability | firmware/src/main.cpp:53-63 | if the last flash access since the cold boot worked, a cold boot would restore exactly the config in RAM |
| BoardRuns.PowerCutChangesNoSetting | firmware/src/main.cpp:97-114 | and so a power cut followed by a boot that can read its store changes no setting and no flash byte |
| BoardRuns.RepeatingACommandNeverSavesIt | firmware/core/aq_config.c:29-33 | while powered, no number of repetitions of the command in force, or of rejected ones, writes to flash |
| BoardRuns.FailedSaveLosesTheSetting | firmware/src/main.cpp:59-62 | a 600 s interval applied with a failing save reverts to 300 s at the next power cut |
| BoardRuns.SettingSurvivesIff | firmware/src/main.cpp:53-63 | from every memory, in step or not: the config in force at the end of a wake would survive a power cut if and only if the save worked, left the new record, or left what means the same config; without a save, if what the boot left in flash does |
| BoardRuns.ColdBootInStepIff | firmware/src/main.cpp:97-114 | a cold boot without a command ends with RAM and flash in step if and only if the read worked, or flash is erased or holds the defaults |
| BoardRuns.CutWakeLeaves | firmware/src/main.cpp:53-63 | a power cut during a save leaves the old record, the new one or none, at any other moment what the boot left, and RAM never |
| BoardRuns.FailedReadComesBack | firmware/adapters/esp32/config_store_esp32.c:41-62 | a failed read runs the node at 300 s over a record of 600 s, which the next power cut brings back |
| BoardRuns.RateBound | firmware/core/aq_downlink.h:22-29 | over any window of uplinks without power loss: one per 120 s at most, one per 6 h at least, and 1.2 s of airtime each stays within 1% of the time |
| BoardRuns.OneSleepPerWake | firmware/src/main.cpp:127-130 | k wakes without power loss add exactly k sleeps and change none before |
| BoardRuns.ConfirmedWithinTwoUplinks | firmware/core/aq_config.h:15-20 | after any config frame the node sleeps exactly 120 s and its next uplink is a report that the server decodes to that opcode, the node's verdict and the config in force; from a valid state, or none, verdict (1, 2 or 3) and config are those of the server's own decoder and range check; a rejected command changes no setting and writes no flash |
| BoardRuns.FactoryNewNode | firmware/core/aq_downlink.c:3-7 | until it hears a command, a factory-new node sends an uncorrected reading, sleeps 120 s, reports 300 s and no offsets, and then sends uncorrected readings every 300 s, whatever its flash does |
| BoardRuns.ColdBootIsReported | firmware/src/main.cpp:106-124 | a cold boot sends a reading, sleeps 120 s and then reports what it loaded, with no command and no result if none was heard |
| BoardRuns.QuietWakesSettleDown | firmware/core/aq_config.c:39-49 | over any number of wakes without a command the pending report is used up in the first and from then on readings go out at the set interval, with config and flash unchanged |
| BoardRuns.OtherPortsAreSilence | firmware/core/aq_config.c:16-19 | a frame on any port but 10 has the same effect as none |
| Board.Board.Wake | firmware/src/main.cpp:97-131 | memory, uplink and sleep after a wake are those of the value-level wake |
| Board.Board.SendReading | firmware/src/main.cpp:65-83 | sends the encoding of the calibrated sample on port 2 and hears what this call's window brought |
| Board.Board.SendReport | firmware/src/main.cpp:85-95 | sends the report of the state before, and clears only the pending flag |
| Board.Board.HandleDownlink | firmware/src/main.cpp:53-63 | applies what was received and writes flash exactly when the config changed |
| Board.Board.PowerCut | firmware/src/main.cpp:46-50 | RTC RAM is lost, flash is kept |
| Board.DownlinkBuffer.LorawanSend | firmware/adapters/esp32/lora_esp32.cpp:172-208 | the static receive buffer holds this window's frame, cut to 242 bytes, or nothing: never an earlier one |
| Downlink.ConfigAfter | firmware/core/aq_downlink.c:22-46 | a command keeps a valid config valid, and changes nothing unless it is applied |
| Downlink.ConfigStruct.Apply | firmware/core/aq_downlink.c:22-46 | the in-place copy, check and commit gives that verdict and that config, for every buffer, null included |
| Downlink.ConfigStruct.Init | firmware/core/aq_downlink.c:3-7 | the defaults |
| NodeState.Fresh | firmware/core/aq_config.c:5-14 | every start state is valid |
| NodeState.AfterDownlink | firmware/core/aq_config.c:16-33 | validity is kept and other ports change nothing |
| NodeState.NodeStruct.Init | firmware/core/aq_config.c:5-14 | the struct starts from the stored config if in range, else from the defaults |
| NodeState.NodeStruct.OnDownlink | firmware/core/aq_config.c:16-33 | new state for every port and buffer, and the result is true exactly when the config changed |
| NodeState.NodeStruct.RequestReport | firmware/core/aq_config.c:35-37 | sets only the pending flag |
| NodeState.NodeStruct.ReportDone | firmware/core/aq_config.c:43-45 | clears only the pending flag |
| NodeState.NodeStruct.EncodeReport | firmware/core/aq_config.c:56-63 | the nine bytes written are the report of the state |
| Payload.ReadingStruct.Sample | firmware/core/aq_node.c:10-31 | a failed sensor leaves zeros and a clear bit; the call fails only if both do |
| Payload.ReadingStruct.Calibrate | firmware/core/aq_config.c:65-73 | offsets are applied to the groups that were read, PM2.5 not below zero |
| Payload.ReadingStruct.Encode | firmware/core/aq_payload.c:23-32 | the thirteen bytes written are the payload of the reading |
| ConfigStore.Restored | firmware/adapters/esp32/config_store_esp32.c:41-62 | whatever the blob, a valid config comes out of a cold boot |
| ConfigStore.RecordByteByByte | firmware/adapters/esp32/config_store_esp32.c:41-62 | a blob is a record exactly if it has 7 bytes and version 1, and each field comes from its bytes |
| ConfigStore.RestoreUndoesRecord | firmware/adapters/esp32/config_store_esp32.c:41-86 | a record is read back as the config it was written from, and taken up exactly if valid |
| ConfigStore.FlashCell.Mount | firmware/adapters/esp32/config_store_esp32.c:26-39 | mounting may erase the cell and may fail |
| ConfigStore.FlashCell.Load | firmware/adapters/esp32/config_store_esp32.c:41-62 | None on any fault, wrong length or wrong version, else the stored config |
| ConfigStore.FlashCell.Save | firmware/adapters/esp32/config_store_esp32.c:64-86 | the cell after a save that works or fails leaving the old record, the new one or none |
| CodecAgreement.WireIsUnderstood | packages/telemetry-codec/src/index.ts:149-186 | for every argument that fits its field, the node is asked for exactly that setting, and the decoder gives the command back |
| CodecAgreement.EncoderAcceptsWhatTheNodeApplies | packages/telemetry-codec/src/index.ts:126-167 | the server's encoder accepts a number exactly if it fits the field and a node with a valid config would apply it; applying changes that one setting; decoding undoes encoding |
| CodecAgreement.DecoderThrowsOnMalformed | packages/telemetry-codec/src/index.ts:171-186 | over all byte strings the server's decoder throws exactly when the node says malformed, and else both read the same command |
| CodecAgreement.VerdictsAgree | firmware/core/aq_config.c:16-33 | over all byte strings and valid configs the node's result code is 3 exactly if the server's decoder throws, 2 exactly if the command it reads is out of the server's range, else 1; only then the config changes, as the command says |
| CodecAgreement.ReportIsUnderstood | packages/telemetry-codec/src/index.ts:218-254 | the server decodes a node's report to its state, for every state with a known result code, and its own encoder gives the node's bytes |
| CodecAgreement.EncodeUndoesDecode | packages/telemetry-codec/src/index.ts:48-97 | a payload that decodes is encoded back to itself if and only if it is 13 bytes of version 1 with known presence bits |
| CodecAgreement.DecodeOfFirmwareReading | firmware/core/aq_payload.c:11-32 | the server decodes every reading the firmware encodes, each field saturated to the wire range and within half a wire step |
| CodecAgreement.ClampIsNearest | firmware/core/aq_payload.c:9-21 | the clamps saturate and round to within one half |
| CodecAgreement.RoundingsAgree | packages/telemetry-codec/src/index.ts:79-82 | the unsigned clamps of C and TypeScript agree everywhere, the signed ones exactly off the negative halves inside the range |
| CodecAgreement.EncodersAgree | packages/telemetry-codec/src/index.ts:84-97 | the two encoders give the same bytes if and only if the temperature is not such a half |
| CodecAgreement.EncodersPartAtAHalf | packages/telemetry-codec/src/index.ts:79-82 | -0.005 degrees is -1 on the node's wire and 0 on the server's |
| TelemetryCodec.UplinkByteByByte | packages/telemetry-codec/src/index.ts:48-77 | the decoder accepts exactly 13 bytes or more of version 0 or 1, and gives each field from its bytes, with all sensors present in version 0 |
| TelemetryCodec.LastByteOfUplink | packages/telemetry-codec/src/index.ts:93-95 | version 1 and the presence bits, both if the payload does not say |
| TelemetryCodec.EncodeUplink | packages/telemetry-codec/src/index.ts:84-97 | the buffer written is the server-side payload |
| TelemetryCodec.EncodeDownlink | packages/telemetry-codec/src/index.ts:149-167 | throws on a value out of range, else writes the command's wire bytes |
| Ingestion.IngestionService.HandleUplink | services/ingestion/src/ingestion/ingestion.service.ts:93-168 | up to its first await: dispatch by port if there is one, config reports written to the cache, bad uplinks counted, and a call under way for every accepted reading |
| Ingestion.IngestionService.Insert | services/ingestion/src/ingestion/ingestion.service.ts:156-171 | the database keeps the row it has for a sensor and time |
| Ingestion.IngestionService.AfterInsert | services/ingestion/src/ingestion/ingestion.service.ts:173-189 | writes the cache after an insert that worked, counts a drop after one that failed |
| Ingestion.IngestionService.AfterSet | services/ingestion/src/ingestion/ingestion.service.ts:184-190 | broadcasts after a cache write that worked, else counts a drop |
| Ingestion.IngestionService.AfterPublish | services/ingestion/src/ingestion/ingestion.service.ts:190-197 | counts the reading as ingested or dropped |
| Ingestion.IngestionService.HandleConfigReport | services/ingestion/src/ingestion/ingestion.service.ts:202-214 | writes the decoded settings to the cache, where they take effect unless the write is lost, or throws leaving all alone |
| Ingestion.IngestionService.AfterConfig | services/ingestion/src/ingestion/ingestion.service.ts:214-216 | a config report ends confirmed, or as a drop if its write failed |
| Ingestion.ContentOnTheWire | services/ingestion/src/ingestion/ingestion.service.ts:93-171 | byte by byte: an uplink is a reading to store exactly if it is on port 2, from a named device, of 13 bytes or more with all sensors present, temperature word -4000..8500, humidity word to 10000 and pressure word 300..1100, whatever the particle words, and the row holds its words, index and category; a config report exactly if it is on port 11 and decodes; ignored exactly on other ports or none; and else a drop |
| Ingestion.RowsKeepTheFirst | services/ingestion/src/ingestion/ingestion.service.ts:154-171 | over every interleaving of overlapping calls and every failure, the database holds for each sensor and time the reading inserted first |
| Ingestion.EveryRunKeepsInv | services/ingestion/src/ingestion/ingestion.service.ts:93-198 | whatever is stored, cached or broadcast was accepted from some message; it has a row before it is cached, and its sensor a cached reading before it is broadcast |
| Ingestion.EveryUplinkIsAccountedFor | services/ingestion/src/ingestion/ingestion.service.ts:191-197 | every uplink but those on other ports is under way, ingested, confirmed or dropped, exactly once |
| Ingestion.SuccessesAreCounted | services/ingestion/src/ingestion/ingestion.service.ts:190-197 | over every run each counter counts its own: readings whose broadcast was acknowledged, reports whose cache write was, and uplinks that cannot be used or whose insert, cache write or broadcast failed |
| Ingestion.EveryRunKnowsItsWrites | services/ingestion/src/ingestion/ingestion.service.ts:214 | a report's cache write that is waited for was issued by some report, and is lost only if that one was |
| Ingestion.LatestKeepsTheLastSet | services/ingestion/src/ingestion/ingestion.service.ts:173-189 | over every interleaving the latest-value cache holds for each sensor the reading whose cache write came last |
| Ingestion.CertainIff | services/ingestion/src/ingestion/ingestion.service.ts:81-83 | once the cache writes under way are through, a property of the cached reading is certain under all schedules if and only if every reading on its way has it (or the cached one, if none is) |
| Ingestion.LastArrivalWinsIff | services/ingestion/src/ingestion/ingestion.service.ts:154-189 | a reading that arrives ends up as the latest under all schedules if and only if no other reading of its sensor is on its way |
| Ingestion.NewestWinsIff | services/ingestion/src/ingestion/ingestion.service.ts:154-189 | no newer reading than the cached one remains, under all schedules, if and only if every reading on its way is a newest one |
| Ingestion.WithoutOverlapTheLastWins | services/ingestion/src/ingestion/ingestion.service.ts:154-189 | over every run in which a sensor's readings do not overlap or fail, its latest is its last accepted one |
| Ingestion.EarlierMayStayLatest | services/ingestion/src/ingestion/ingestion.service.ts:81-83 | from any state with two inserts of one sensor under way, the schedule that leaves the earlier arrival as the latest |
| System.EveryRunKeepsInv | services/ingestion/src/ingestion/ingestion.service.ts:202-216 | over every interleaving of any number of nodes, a network that loses, repeats and reorders, a cache that is out of reach at times, and a server with uplinks under way, each cached config is what a delivered report says |
| System.NodesAreBoards | firmware/src/main.cpp:97-131 | in every such run each node's memory is that of a board run on its own events alone |
| System.ServerIsIngestion | services/ingestion/src/ingestion/ingestion.service.ts:81-83 | and the server's stores are those of a run of the ingestion service on what was delivered |
| System.CacheShowsAPastConfig | services/ingestion/src/ingestion/ingestion.service.ts:24-26 | every cached config is one its node was running when it built some report, and is valid |
| System.CacheIsCurrent | services/ingestion/src/ingestion/ingestion.service.ts:200-216 | it is the node's present config once nothing is pending and its last-built report is the last one to reach the cache |
| System.ReportArrives | services/ingestion/src/ingestion/ingestion.service.ts:202-203 | a report survives Base64 and decoding unchanged |
| System.VerdictComesBack | services/ingestion/src/ingestion/ingestion.service.ts:27-32 | any config frame heard by a node in any reachable state shows, after its next report has reached the cache, with its opcode, the config it leaves in force and the name malformed, out_of_range or applied exactly as the server's own decoder and range check have it, whatever other nodes, network and server do in between, until another report of the node does |
| System.CommandComesBackApplied | packages/telemetry-codec/src/index.ts:148-167 | so any command the encoder accepts shows as applied, with its one setting changed and the others kept |
| System.ColdBootComesBack | firmware/core/aq_config.h:15-20 | after a cold boot without a command the next report shows the config taken up, with no command and the result none |
| System.StoredReadingIsTheSample | services/ingestion/src/ingestion/ingestion.service.ts:111-171 | a reading of a named device is stored exactly if both sensor groups answered, its corrected temperature is above -40.005 and below 85.005 degrees, humidity below 100.005 % and pressure from 299.5 to below 1100.5 hPa, and its values are the calibrated samples within half a wire step |
| System.CalibratedSample | firmware/core/aq_config.c:65-73 | each group of a calibrated sample is the corrected reading, or zeros with a clear bit |
| Base64.DecodeUndoesEncode | firmware/sim/main.c:36-56 | decoding by section 4 of RFC 4648 returns every byte string that was encoded |
| Base64.EncodeUndoesDecode | firmware/sim/main.c:36-56 | the encoder's output is the only text that decodes strictly to its input |
| Base64.DigitCount | firmware/sim/main.c:38-56 | four characters for every three bytes begun |
| Base64.Base64Encode | firmware/sim/main.c:38-56 | the buffer holds the text and its terminator |
| Base64.PayloadsFit | firmware/sim/main.c:186-187 | both payloads fit the 32-character buffer |
| Base64Table.TableHoldsTheAlphabet | firmware/sim/main.c:36 | the table is the alphabet of the RFC |
| HostText.ScanUndoesLine | firmware/sim/main.c:58-83 | any line of numbers that is printed is scanned back |
| HostText.SkippedIsWhite | firmware/sim/main.c:91 | exactly the white space of the C locale in front of a number is skipped |
| HostText.HexDigitsOfEitherCase | firmware/sim/main.c:91 | digits of either case have their values, and nothing else is a hex digit |
| HostText.UnhexUndoesHex | firmware/sim/main.c:86-95 | hex digits of bytes are read back as those bytes |
| HostText.ParseHex | firmware/sim/main.c:86-95 | for every string: the scanned bytes, or -1 if its length is odd or too large or some pair does not scan |
| HostText.ParseUndoesHex | firmware/sim/main.c:86-95 | the hex of any bytes is parsed to those bytes exactly if they fit |
| HostText.ParsedIff | firmware/sim/main.c:86-95 | a string is taken for bytes if and only if its length is even and fits and, at every second character, white space is followed by a sign and a hex digit or by a hex digit that begins no bare `0x` |
| HostText.LooseHexIsAccepted | firmware/sim/main.c:91 | a string with a single and a signed digit is taken for two bytes |
| HostSim.LoadUndoesSave | firmware/sim/main.c:58-84 | a saved state is loaded back unchanged exactly if its config is valid |
| HostSim.RefusedIff | firmware/sim/main.c:86-105 | a downlink is refused exactly if its hex is odd, longer than 484 characters or does not scan pair by pair |
| HostSim.HostNode.Load | firmware/sim/main.c:60-76 | the state in the file, range-checked, or a cold boot |
| HostSim.HostNode.Boot | firmware/sim/main.c:149-163 | a power cycle keeps the config and loses the rest |
| HostSim.HostNode.Wake | firmware/sim/main.c:149-197 | file and printed line after one wake process |
| HostSim.HostNode.DeliverDownlink | firmware/sim/main.c:97-114 | file and printed line after one downlink process, including the hex it refuses |
| HostRefinesBoard.StepSimulates | firmware/sim/main.c:149-197 | one wake with its downlink, taking up the file's config if it is a cold boot and whatever flash does else: the host's file stays a picture of the board's RAM and it prints the board's port, payload and sleep |
| HostRefinesBoard.HostRefines | firmware/sim/main.c:14-23 | so for every run of power cycles between wakes, samples, frames and flash accesses, failed or not, in which each cold boot takes up the config that was in force before it |
| HostRefinesBoard.OtherConfigShows | firmware/sim/main.c:149-197 | and no less will do: after a quiet cold boot and a quiet warm wake the two have printed the same if and only if the boot took up the file's config |
| HostRefinesBoard.FlashThatHoldsKeeps | firmware/src/main.cpp:97-131 | each cold boot does if flash holds throughout: it means the config in force after every wake, and a cold boot takes it up |
| HostRefinesBoard.FlashHoldsIff | firmware/src/main.cpp:97-131 | flash holds in a wake if and only if a cold boot reads the cell or it means the defaults anyway, and what a save leaves survives a power cut |
| HostRefinesBoard.FactoryNewNodesAgree | firmware/sim/main.c:14-18 | in particular from a missing file and an empty flash, if every mount, read and write works |
| SimQueue.EveryRunKeepsInv | services/simulator/src/index.ts:222-314 | timers, queue and counters stay consistent over every order of events and failures |
| SimQueue.NeverSilent | services/simulator/src/index.ts:242-280 | once it was started, a device always has a wake queued, running or on a live timer |
| SimQueue.OneTimer | services/simulator/src/index.ts:231-237 | at most one timer of a device can fire, and it is the recorded one |
| SimQueue.TimerCarriesTheSleep | services/simulator/src/index.ts:231-237 | over every run that timer carries the sleep returned by the last call that armed one, 300 s after a wake whose firmware failed |
| SimQueue.SettleArms | services/simulator/src/index.ts:275-313 | a wake that ends leaves one timer, with its firmware's sleep or 300 s; so does a delivery that worked; one that failed leaves what was armed |
| SimQueue.FirstInFirstOut | services/simulator/src/index.ts:220-229 | jobs begin one at a time in the order they were chained, none left out, even when some fail |
| SimQueue.DeliveredInTurn | services/simulator/src/index.ts:220-222 | a downlink is delivered once and only after everything chained ahead of it, such as the wake that received it |
| SimQueue.FrameCounterCountsWakes | services/simulator/src/index.ts:245-246 | the frame counter is the number of wakes begun |
| SimQueue.PowerCycleSeenIff | services/simulator/src/index.ts:248-251 | over every run some firmware call with `--boot` works if and only if that of the first wake does |
| SimQueue.RestartMayBeMissed | services/simulator/src/index.ts:248-251 | the run in which the first call fails and the second goes without `--boot` |
| SimQueue.OneWakeIff | services/simulator/src/index.ts:231-237 | through a run at most one wake is queued, running or timed if and only if no delivery schedules while a wake is queued and nothing is timed at the start |
| SimQueue.OneWakeStepIff | services/simulator/src/index.ts:275-313 | from one wake ahead at most, a step leaves more exactly in those two cases |
| SimQueue.WakesMayRunBackToBack | services/simulator/src/index.ts:242-313 | a timer that fires during a delivery, and the delivery's own during the wake: the next wake follows at once |
| SimRestart.RestartIsLost | services/simulator/src/index.ts:215-218 | if it fails, the state file goes on as if no call had passed `--boot` |
| SimRestart.RestartIsAPowerCycle | firmware/sim/main.c:153-163 | if it works, the config in the file is kept and of the rest only a report of it is left to send |
| SimRestart.FileFollowsDownlinks | firmware/sim/main.c:97-114 | over any calls, restarts and failures the config in the state file is the first one changed by each downlink that got through, as the server's decoder and range check read it, and by nothing else |
| SimQueue.SimDevice.Serial | services/simulator/src/index.ts:222-229 | appends the job |
| SimQueue.SimDevice.Schedule | services/simulator/src/index.ts:231-237 | replaces the recorded timer by a new one |
| SimQueue.SimDevice.Begin | services/simulator/src/index.ts:243-250 | takes the next job; a wake raises the counter by one |
| SimQueue.SimDevice.Settle | services/simulator/src/index.ts:275-313 | a wake always schedules the next, with 300 s if the firmware failed; a delivery only if it worked |
| LiveStore.ConvergesIff | apps/dashboard/src/stores/air.ts:127-130 | all orders and repetitions of a set of readings give the same picture if and only if no sensor has two newest ones |
| LiveStore.StrongConvergence | apps/dashboard/src/stores/air.ts:127-130 | hence always, with at most one reading per sensor and time |
| LiveStore.LatestIsNewest | apps/dashboard/src/stores/air.ts:127-130 | each entry is a newest reading of its sensor, and every sensor heard has one |
| LiveStore.TimeNeverGoesBack | apps/dashboard/src/stores/air.ts:127-130 | no entry is lost or replaced by an older one |
| LiveStore.LatestDependsOnReadingsOnly | apps/dashboard/src/stores/air.ts:127-141 | live pushes, polls and history answers in any mixture: only the readings decide the picture |
| LiveStore.MergeKeepsOrderAndNewer | apps/dashboard/src/stores/air.ts:289-297 | the merged history is the response followed by exactly the newer live readings, strictly in order |
| LiveStore.PushTrimsToWindow | apps/dashboard/src/stores/air.ts:136-141 | after a live push the history is strictly ordered and holds exactly its window |
| LiveStore.PushKeepsOrderIff | apps/dashboard/src/stores/air.ts:136-141 | a push onto any ordered history keeps the order if and only if the reading is newer than the last one |
| LiveStore.HistoriesStayOrdered | apps/dashboard/src/stores/air.ts:127-141 | over every run in which no response runs ahead of the picture, all histories stay strictly ordered |
| LiveStore.NoReadingIsLost | apps/dashboard/src/stores/air.ts:289-297 | over every run, a reading leaves a history only by its window or by a response that reaches past it |
| LiveStore.FirstResponseIsTheHistory | apps/dashboard/src/stores/air.ts:292-296 | whatever arrives before a sensor's first response, the history is then that response, and holds a live reading if and only if it does |
| LiveStore.LiveReadingIsLost | apps/dashboard/src/stores/air.ts:295 | a live reading, newest in the picture, that the history on screen leaves out |
| LiveStore.AlwaysOrderedIff | apps/dashboard/src/stores/air.ts:127-141 | all histories stay strictly ordered through a run if and only if every response is in order and every push is newer than what its history then ends with |
| LiveStore.OnScreenIff | apps/dashboard/src/stores/air.ts:127-141 | after such a run a reading is on screen if and only if a response or an accepted live push onto a loaded history brought it and no later window or response removed it |
| LiveStore.PolledPushIsLost | apps/dashboard/src/stores/air.ts:129 | a reading that a poll brings first never reaches the history by its live push |
| LiveStore.LastLiveIsLastNews | apps/dashboard/src/stores/air.ts:132-133 | what the map ripples for is the last live reading that was new to the picture, whatever polls brought since |
| LiveStore.AirStore.ApplyReading | apps/dashboard/src/stores/air.ts:127-153 | the store, the display clock and the lookup of unknown sensors after a reading, live or not |
| SensorLookup.AskedAboutIff | apps/dashboard/src/stores/air.ts:143-153 | over every run the devices asked about are exactly the unregistered ones heard since the last periodic refresh |
| SensorLookup.QueuedIff | apps/dashboard/src/stores/air.ts:147-152 | the delayed refresh is armed exactly if such a device was heard for the first time since it last fired |
| SensorLookup.RegisteredIsLastList | apps/dashboard/src/stores/air.ts:156-163 | the sensors known are those of the last list that came |
| SensorLookup.AskedOnceAPeriod | apps/dashboard/src/stores/air.ts:143-153 | between two periodic refreshes no device is asked about twice, however many readings come in |
| LiveStore.AirStore.SyncLatest | apps/dashboard/src/stores/air.ts:177-182 | all readings are applied in turn and the display clock is set; histories and lookups are untouched |
| LiveStore.AirStore.OnReadings | apps/dashboard/src/stores/air.ts:292-296 | the store after a history response |
| Connection.EveryRunKeepsInv | apps/dashboard/src/stores/air.ts:186-220 | no live timer is ever out of the store's hands, over every interleaving of socket, timers and late polls |
| Connection.TimersMatchState | apps/dashboard/src/stores/air.ts:186-220 | connecting or live if and only if no timer is live; reconnecting or polling if and only if exactly one is |
| Connection.OnePollLoop | apps/dashboard/src/stores/air.ts:205-219 | two poll loops never coexist, nor one with the delay or a live socket |
| Connection.EveryTickPolls | apps/dashboard/src/stores/air.ts:206-218 | over every run the polls under way and those settled are together the delays that ended and the ticks: each starts exactly one |
| Connection.OneResyncPerReturn | apps/dashboard/src/stores/air.ts:193-200 | every connect but one that opens the session asks for exactly one resync |
| Connection.StaysLive | apps/dashboard/src/stores/air.ts:193-215 | once live, any run without a disconnect leaves state and timers as they are: answers to polls of earlier outages only use these up, and repeated connects only resync |
| Connection.StopIsCleanUnlessDown | apps/dashboard/src/stores/air.ts:278-285 | `stop` leaves no timer, and whatever polls settle after it a consistent state exactly if it was not in an outage; the next socket event repairs it |
| Connection.StoppedWhilePolling | apps/dashboard/src/stores/air.ts:278-285 | the run that is stopped while polling and still says so with no timer armed |
| Connection.ConnectionState.OnConnection | apps/dashboard/src/stores/air.ts:193-220 | state, timers and resyncs after a socket event |
| Connection.ConnectionState.OnDelay | apps/dashboard/src/stores/air.ts:206-218 | the delay becomes a poll and an interval |
| Connection.ConnectionState.OnPollSettled | apps/dashboard/src/stores/air.ts:209-215 | the state after a poll is answered or fails |
| CitySeries.LoadingMeansPending | apps/dashboard/src/stores/air.ts:330-345 | the loading flag is true exactly while a request is pending, forced ones included |
| CitySeries.NarrowsIff | apps/dashboard/src/stores/air.ts:338 | over every run a step narrows the recorded range if and only if it is the answer to a narrower forced request |
| CitySeries.SafeIff | apps/dashboard/src/stores/air.ts:336-344 | no order of answers and failures narrows the range if and only if no forced request is narrower than what is recorded or under way |
| CitySeries.PoliteIff | apps/dashboard/src/stores/air.ts:331-335 | a run is so throughout if and only if each of its requests is made so, which is decided when it is made |
| CitySeries.ConsiderateIsPolite | apps/dashboard/src/stores/air.ts:369-370 | every run is in which forced requests are for the recorded range while nothing wider is under way, as those of the periodic refresh, and no wider range is asked for until they are settled |
| CitySeries.UnforcedIsPolite | apps/dashboard/src/stores/air.ts:331-335 | unforced requests are, whatever their ranges |
| CitySeries.WidestAnswerWins | apps/dashboard/src/stores/air.ts:330-345 | over such a run, forced refreshes included, the recorded range is the widest settled one, and the points are those of the last answer no narrower than anything settled before |
| CitySeries.NeverNarrower | apps/dashboard/src/stores/air.ts:338-341 | no step of such a run narrows the recorded range or the range of the points shown |
| CitySeries.CoversItsRangeIff | apps/dashboard/src/stores/air.ts:326-341 | over every run, whatever is forced, the points are those of the last answer shown, and cover the recorded range if and only if that was last set by an answer |
| CitySeries.WidestSucceededIff | apps/dashboard/src/stores/air.ts:326-341 | over a polite run, if and only if some widest request succeeded |
| CitySeries.FailedWideHidesNarrow | apps/dashboard/src/stores/air.ts:338-341 | a failed request for 30 days followed by an answer for 1 shows nothing |
| CitySeries.StaysUntilWiderOrForced | apps/dashboard/src/stores/air.ts:333-341 | with only narrower unforced requests under way, no run changes what is shown or makes a request until a wider range or a refresh is asked for |
| CitySeries.ForcedRefreshMayNarrow | apps/dashboard/src/stores/air.ts:338 | a concrete run in which a forced refresh replaces 30 days by 1 |
| CitySeries.CityStore.Load | apps/dashboard/src/stores/air.ts:331-335 | counter and flag when a request is made or not |
| CitySeries.CityStore.Settle | apps/dashboard/src/stores/air.ts:336-344 | series, counter and flag after an answer or a failure |
| MapLimit.Run | apps/dashboard/src/lib/stats.ts:141-156 | whatever settles first: with a limit the call ends, resolves if and only if every task does, and then to the answers in item order; without one it resolves to holes |
| MapLimit.EveryRunKeepsInv | apps/dashboard/src/lib/stats.ts:146-154 | over every interleaving each index is unclaimed, in flight with the one worker that claimed it, or settled |
| MapLimit.ClaimedOnceWithinLimit | apps/dashboard/src/lib/stats.ts:149-150 | indices are claimed one after the other, each once, with at most `limit` in flight |
| MapLimit.PoolIsFull | apps/dashboard/src/lib/stats.ts:148-154 | while nothing was rejected and items are left, no worker is idle |
| MapLimit.EverySettleIsProgress | apps/dashboard/src/lib/stats.ts:149-152 | each settled task leaves one less unclaimed or in flight |
| MapLimit.CompleteUnlessLimitIsZero | apps/dashboard/src/lib/stats.ts:154-155 | a quiet pool without rejection has every answer in its place if and only if the limit is positive or there are no items |
| MapLimit.StopsShortOnlyIfAllRejected | apps/dashboard/src/lib/stats.ts:148-154 | items stay unclaimed only if all workers were rejected |
| Aqi.SubIndexMonotone | packages/domain/src/aqi.ts:37-49 | more particles never mean a lower sub-index, infinities included |
| Aqi.IndexInBand | packages/domain/src/aqi.ts:41-48 | on any regular table rounding never leaves the band |
| Aqi.IndexInTenthsBand | packages/domain/src/aqi.ts:13-20 | every PM2.5 tenth up to 325.4 is in a band, and its index is Equation 1 of that band, rounded |
| Aqi.IndexInUnitsBand | packages/domain/src/aqi.ts:22-29 | the same for every PM10 microgram up to 604 |
| Aqi.TopOfTheTable | packages/domain/src/aqi.ts:44-46 | above the last breakpoint the index stays at the ceiling |
| Aqi.OverallCategory | packages/domain/src/aqi.ts:51-67 | the overall index is 0..500, that of the dominant pollutant and no less than the other's, and its category is the worse of the two bands' |
| Aqi.TenthMovesByAtMostOne | packages/domain/src/aqi.ts:31-49 | from any real concentration a step of 0.1 moves the PM2.5 index up by at most one |
| Aqi.Pm25IndexIsOnto | packages/domain/src/aqi.ts:13-20 | every value 0..500 is the index of some PM2.5 concentration |
| DashboardAqi.DashboardAgrees | apps/dashboard/src/lib/aqi.ts:132-173 | the dashboard's own tables, search, clamp and truncation give the server's indices for every pair of inputs |
| DashboardAqi.SubIndicesAgree | apps/dashboard/src/lib/aqi.ts:151-158 | and so on any two tables with the same rows |
| DashboardAqi.AqiCategory | apps/dashboard/src/lib/aqi.ts:95-100 | its search of the category table finds the row of the server's category, whose range holds the index |
| Csv.ReadUndoesField | apps/dashboard/src/lib/export.ts:46-49 | a written field is read back, whatever its characters |
| Csv.ReadUndoesLine | apps/dashboard/src/lib/export.ts:54 | so is a row |
| Csv.ReadUndoesExportIff | apps/dashboard/src/lib/export.ts:51-56 | a reader of section 2 of RFC 4180 returns the header and, for each row and header, the row's value under that header or nothing, if and only if the table has columns and is not one column ending in an empty field |
| Csv.NoColumns | apps/dashboard/src/lib/export.ts:53-55 | a table without columns is not read back |
| Csv.EmptyLastRowIsLost | apps/dashboard/src/lib/export.ts:55 | the smallest table that loses its row |

## Left out

- DashboardAqi.DashboardAgrees: both copies are computed with exact numbers; where IEEE rounding moves `c * 10` across an integer is not modelled, nor is NaN.
- CodecAgreement.EncodersAgree: floats are exact reals, so the rounding of `temperature * 100.0f` itself is not modelled; NaN is not an input.
- HostText.ScanUndoesLine: numerals beyond 32 bits are reduced modulo the field; the C library saturates them first. No saved file holds one.
- HostText.ParseHex: characters stand for bytes, and `0x` without a digit is refused as the C standard has it; some C libraries read it as 0.
- HostRefinesBoard.HostRefines: no power cut falls inside a wake, since a host process has none; the host is handed the frames the board's radio hands back, which are never longer than 242 bytes. A cold boot that takes up another config has no counterpart on the host, whose file holds RAM and flash in one (`OtherConfigShows`).
- Ingestion.IngestionService.HandleUplink: strict Base64 only (Node also accepts non-canonical text, which ChirpStack does not send); the cache's expiry time and signal strength are not modelled.
- Ingestion.LastArrivalWinsIff: inserts may take effect in any order. Beyond ten uplinks under way the driver queues some behind others on its ten connections, which rules out some of the orders; cache writes take effect in the order they are issued, on one connection.
- SimQueue.NeverSilent: one device; the maps of the simulator are keyed by device and share nothing else. Join, encryption and the gateway are left out.
- SimQueue.TimerCarriesTheSleep: delays are the node's own seconds; `sleepMs` scales them to simulated time, to one second at least.
- SimRestart.RestartIsLost: a firmware call that failed is taken to have left the state file alone.
- LiveStore.HistoriesStayOrdered: responses that run ahead of the picture are excluded; `AlwaysOrderedIff` covers them.
- CitySeries.WidestAnswerWins: runs with an impolite forced request are excluded, since with one it is false (`ForcedRefreshMayNarrow`); `PoliteIff` and `SafeIff` say which runs those are.
- MapLimit.Run: a task is a function of its item; a rejected call reports that some task failed, not which was first.
- BoardRuns.RateBound: counts sleeps between power cuts; a node that loses power again and again may send without sleeping.
- SensorLookup.AskedOnceAPeriod: the table of rows is the list of registered sensors; that identifiers are compared in lower case elsewhere is not modelled.
- `loadPlaceSeries` is `loadCitySeries` per neighbourhood without the counter and the flag.
- Radio, sensors, power management and LoRaWAN sessions are inputs of a wake.
- Views, charts, averages, the API controllers and the sensor registry would only add easy members.
