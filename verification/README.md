# MacVNC protocol cores, modelled and proved in Dafny

This project models the stateful cores of MacVNC and proves what they promise, over all inputs and all runs:

- **Video depacketizer** (`Hevc`, `Packetization`, `ReassemblyGrammar`, `DepacketizerModel`, `DepacketizerInvariants`,
  `DepacketizerHistory`, `SequenceOrder`, `QueueOrder`, `Reception`, `PictureDelivery`, `PictureRuns`, `PictureTheorems`,
  `TimedRuns`, `QuietRuns`, `HandoffTheorems`, `PictureExamples`, `GroupFates`, `IncompletePictures`, `LossExamples`,
  `ParameterSets`, `ParameterGrammar`, `SourceAdoption`, `Depacketizer`): packets are grouped, ordered and reassembled
  into access units, or lost (sections 4.4.1 to 4.4.3 of RFC 7798, and Apple's variant with a decoding order number in
  every packet).
- **Session loop** (`SessionModel`, `SessionTheorems`, `SessionProgress`, `SessionExamples`, `VideoLoop`) and
  **compositor** (`Compositor`): what the decoder is fed, and what is shown.
- **SRTP** (`ReplayWindow`, `SrtpCipher`, `SrtpModel`, `SrtpStream`, `SrtpBytes`, `Srtp`): index estimation, the replay
  window, counter blocks and the two senders (sections 3.1, 3.3.1, 3.3.2, 4.1.1 and 4.2 of RFC 3711).
- **Encrypted control channel** (`RecordModel`, `RecordBytes`, `RecordLayer`, `OutboundModel`, `FlushOutcomes`,
  `Outbound`, `FileMessages`, `FileTransfer`, `FileLayouts`, `TransferModel`, `Transfer`, `ControlModel`,
  `ControlTheorems`, `ControlSteps`, `FloodTheorems`, `Control`): records, the output queue, file messages, uploads and
  downloads, and all of them together.
- **Update transaction** (`InstallModel`, `InstallOrder`, `InstallOutcomes`, `Install`) and **protobuf codec**
  (`Protobuf`, `ProtobufGrammar`).

Each component has the same shape. A `...Model` file gives the code's state and steps as functions on values; lemmas prove
the properties of whole runs; and a class with the source's fields updates them in place, each method proved to do exactly
what the function says. So every theorem about the functions is a theorem about the class. A *history variable*
(`log`, `trace`, `accepted`, `applied`) records what happened where a property speaks about the past. What the functions
themselves must be is said apart from them: the byte layouts, grammars and outcomes in `GroupFates`, `SessionProgress`,
`SrtpBytes`, `RecordBytes`, `FileLayouts`, `FlushOutcomes`, `ControlSteps`, `InstallOutcomes`, `ReassemblyGrammar`,
`ParameterGrammar` and `ProtobufGrammar` are written with the numbers of the formats, and tied to the functions by if and
only if.

Parameters stand for what is outside: the block cipher, the MAC and the hash are functions of which only their sizes and
"decrypt undoes encrypt" are used; time is a number given by the caller; a hash map's iteration order is the choice
function `pick`; a writer, a socket, a file's reads and a disk's failures are arbitrary sequences of answers; a decoder's
outcome is an argument. A byte is an integer below 256, and every width, wrap and saturation that matters is written out.

## What the code does not do

These are results: the property as it is stated is false of the code, and the exact condition is proved.

- *A picture that loses a packet is recorded as a loss*: not when what has come is its tail from the start of a later
  packet's unit on, and that tail holds the first slice, or no slice. `LostHeadGoesUnnoticed` is a run on which the packet
  with a parameter set is lost and the slice behind it is handed out as the whole picture; `Noticed` in
  `DamagedPictureIsLost` is the condition, and `MissingIsNoticed` shows that it always holds when only the first unit
  opens the picture and every later one is a slice.
- *Tile indices are called immutable* in a comment (`rust/crates/hp-media/src/depacketize.rs:288`). They are not, once the
  discovery time is over with a tile missing: `TileCanChange` is a run from a new depacketizer that hands out two units of
  one source with tiles 0 and 1, and `PushKeepsTile` is the condition.
- *The estimated SRTP index is the true one* exactly within the reach that `EstimateIff` states: 2^15 either way, with the
  ends decided by the rollover period, and any larger index in the first period, where the estimate is clamped.
  `EstimateFails` shows it wrong on either side.
- *The compositor's `true` means that every band was drawn*; it means that the whole canvas is covered exactly when the
  bands are high enough together and each of them was once as wide as the canvas (`CoverageIff`; `DrawnIsNotCovered` shows
  both ways to fail), and it can never be returned when the last band starts below the canvas (`CanComplete`).
- *Rolling back twice* deletes restored entries: `SecondRollbackDeletes` is an input, `SecondRollbackIff` the condition.
- *Protobuf fields* come back as they were meant exactly when all their numbers are from 1 to 2^61 - 1 (`FieldsInvert`):
  beyond that the tag loses the top bits, without an error (`NumberLost`) unless nothing is left (`FieldsParse`).
- *Whatever a control channel carries is handed out*: a poll that completes more than 256 file messages, with those that
  wait, ends the connection, although nothing is wrong with them. `FloodInput` is an input of 12,850 bytes, `CalmRun` the
  condition, `FileArrivesInTime` a receiver that never meets it.
- *An empty record* in the output queue would be reported as a closed connection, and nothing else would
  (`EmptyRecordReadsAsClosed`); `SizeFits` shows that encryption never makes one.

## Model

| member | source | states |
|---|---|---|
| Hevc.HeaderBits | rust/crates/hp-media/src/depacketize.rs:484-494 | the shifts and masks on header bytes are the divisions and remainders used everywhere else |
| Hevc.Reassemble | rust/crates/hp-media/src/depacketize.rs:440-522 | the loop over packets, with its fragment under construction, computes the packet-by-packet specification, error for error |
| Hevc.ReadAggregate | rust/crates/hp-media/src/depacketize.rs:469-482 | the cursor loop over an aggregation packet collects exactly its length-prefixed NAL units, or the first error |
| Packetization.ApNalsInvertsSized | rust/crates/hp-media/src/depacketize.rs:469-482 | reading an aggregate gives back exactly the NAL units whose lengths and bytes were written |
| Packetization.RebuildsHeader | rust/crates/hp-media/src/depacketize.rs:488-494 | the header byte rebuilt from indicator and FU header is the original one, for every byte, and the start and end bits are read back |
| Packetization.FragmentsRun | rust/crates/hp-media/src/depacketize.rs:483-507 | a unit cut into any pieces of any sizes is one NAL unit again after its last fragment |
| Packetization.RunConcat | rust/crates/hp-media/src/depacketize.rs:448-517 | processing packets one after the other composes |
| Packetization.ReassemblyInvertsPacketization | rust/crates/hp-media/src/depacketize.rs:440-522 | for every mix of single packets, aggregates and fragments, all sizes and both framings, reassembly gives back the original NAL units in order and the first decoding order number |
| Packetization.ReassemblyDistributes | rust/crates/hp-media/src/depacketize.rs:440-522 | at a boundary between NAL units, the packets before and after it can be reassembled apart: the results are joined |
| Packetization.ParseParameterAp | rust/crates/hp-media/src/depacketize.rs:418-439 | the cursor loop computes the parser's specification for both offsets |
| Packetization.ParameterAggregateReassembles | rust/crates/hp-media/src/depacketize.rs:418-482 | whenever the parser accepts an aggregate under a framing, reassembly under that framing succeeds and the parser's result is exactly its parameter sets, in order |
| ReassemblyGrammar.ReassembledIff | rust/crates/hp-media/src/depacketize.rs:440-522 | a group is reassembled if and only if it parses as single packets, aggregates and complete runs of fragments with one order number each, without Apple's numbers or with them; the units are those of the parse, and the number the first one |
| ParameterGrammar.ParsedIff | rust/crates/hp-media/src/depacketize.rs:418-439 | a packet teaches parameter sets under a framing if and only if it consists of proper NAL units behind their sizes, with one to 64 sets among them, and it teaches exactly those |
| SequenceOrder.SortIsInOrder | rust/crates/hp-media/src/depacketize.rs:327-329 | sorting by reversed wrapping distance from the marker gives the one list that is farthest first |
| SequenceOrder.RunOrder | rust/crates/hp-media/src/depacketize.rs:327-336 | a wrapping run that ends at the marker is listed in sending order |
| SequenceOrder.AcceptsExactlyRuns | rust/crates/hp-media/src/depacketize.rs:327-336 | the adjacency check accepts a group if and only if its sequence numbers are exactly the run that ends at the marker |
| DepacketizerInvariants.PutParamOk | rust/crates/hp-media/src/depacketize.rs:226-232 | the parameter table stays a strictly ordered set: a known entry changes nothing, a new one is added |
| DepacketizerInvariants.EvictOk | rust/crates/hp-media/src/depacketize.rs:193-205 | evicting from a candidate's prefix ends, keeps the byte counter exact and makes room for the new packet |
| DepacketizerInvariants.PushInv | rust/crates/hp-media/src/depacketize.rs:117-224 | every push, whatever its packet, keeps the whole invariant |
| DepacketizerInvariants.PushSelectedInv | rust/crates/hp-media/src/depacketize.rs:225-286 | budgets, evictions and insertion keep the invariant, also while a prefix is replayed |
| DepacketizerInvariants.PollInv | rust/crates/hp-media/src/depacketize.rs:287-416 | every poll keeps the invariant, the history of what was emitted included |
| DepacketizerInvariants.RunInv | rust/crates/hp-media/src/depacketize.rs:117-416 | the invariant holds after every sequence of pushes and polls |
| DepacketizerHistory.UnitsNumbered | rust/crates/hp-media/src/depacketize.rs:402-412 | the units handed out carry consecutive numbers from zero |
| DepacketizerHistory.StampsOrdered | rust/crates/hp-media/src/depacketize.rs:402-412 | generation and loss epoch never decrease from one unit to a later one |
| DepacketizerHistory.SourceAdvances | rust/crates/hp-media/src/depacketize.rs:300-309 | successive units of one source within a generation have strictly advancing timestamps in 32-bit serial arithmetic |
| DepacketizerHistory.KeyOpensGeneration | rust/crates/hp-media/src/depacketize.rs:384-391 | before any unit of a generation there is its first one, and that is a key picture |
| DepacketizerHistory.RunUnits | rust/crates/hp-media/src/depacketize.rs:287-416 | the same for every run from a new depacketizer, with every tile index in range and every epoch stamp the number of losses recorded before |
| DepacketizerHistory.RunBounded | rust/crates/hp-media/src/depacketize.rs:4-11 | in every run: at most 64 groups, 8 MiB and 8192 packets each with exact counters, 32 MiB in all, 32 observed sources, prefixes of 8 packets and 64 KiB, and sorted sources that hold every pending group's source |
| DepacketizerHistory.TileIsRank | rust/crates/hp-media/src/depacketize.rs:401 | the unwrapped search always succeeds and finds the rank of the source |
| DepacketizerHistory.AdoptionKeepsTile | rust/crates/hp-media/src/depacketize.rs:209-210 | adopting a source keeps the index of a known one if and only if the newcomer is larger |
| DepacketizerHistory.PushKeepsTile | rust/crates/hp-media/src/depacketize.rs:169-224 | a push without handoff keeps a known source's index if and only if it does not adopt a smaller source |
| QueueOrder.PollEachSplit | rust/crates/hp-media/src/depacketize.rs:299-321 | a poll works through the groups in front first, and gets to those behind if and only if it gets past all of them |
| QueueOrder.Queue | rust/crates/hp-media/src/depacketize.rs:292-296 | the queue of a poll is the groups created before a pending one, that group, and the rest, each pending group in one place |
| QueueOrder.MovableClears | rust/crates/hp-media/src/depacketize.rs:299-321 | groups that are due, or late with no group of their own source in front, hold up no poll, whatever becomes of the others |
| PictureDelivery.GatheredComplete | rust/crates/hp-media/src/depacketize.rs:262-279 | whatever the order and the duplicates of its packets, a complete picture's group holds exactly its packets and its marker |
| PictureDelivery.TimersAre | rust/crates/hp-media/src/depacketize.rs:310-321 | within 200 ms a group waits until its last packet is in, and from then on exactly 25 ms from the first copy of that packet |
| PictureRuns.PollStops | rust/crates/hp-media/src/depacketize.rs:287-321 | while a picture is held, or a group in front of it is, a poll works on the groups in front and no other, and leaves the picture, its place and its lateness alone |
| PictureRuns.PollReaches | rust/crates/hp-media/src/depacketize.rs:287-321 | once all in front are passed and the picture is due, a poll assembles it and goes on with those behind |
| PictureRuns.OtherKeeps | rust/crates/hp-media/src/depacketize.rs:117-285 | a packet of another picture or source, over budget or not, that does not take over, evict the picture or change its framing leaves a pending picture alone, its place in the queue included |
| PictureRuns.TakeInOwn | rust/crates/hp-media/src/depacketize.rs:225-284 | a packet of the picture joins its group, whatever else is pending |
| PictureTheorems.RunKeeps | rust/crates/hp-media/src/depacketize.rs:117-321 | over every run during which the picture waits, exactly its packets are pending, nothing is handed out but groups that were pending before, and no group gets in front of it |
| PictureTheorems.AssemblesPicture | rust/crates/hp-media/src/depacketize.rs:322-348 | a complete picture is reassembled from its own payloads, whatever else is pending |
| PictureTheorems.PresentUnit | rust/crates/hp-media/src/depacketize.rs:349-415 | its unit: slices behind start codes, parameter sets in front of a key picture, and the stamps that the decisions before it give it |
| PictureTheorems.LearnedAll | rust/crates/hp-media/src/depacketize.rs:355-360 | learning keeps what is known and takes everything new until 64 sets are known |
| PictureTheorems.DuePictureIsPresented | rust/crates/hp-media/src/depacketize.rs:287-415 | when a poll gets to a complete picture that is due, it hands out its unit, once, whatever is pending in front and behind |
| PictureTheorems.PictureYieldsOneUnit | rust/crates/hp-media/src/depacketize.rs:117-416 | over every run: a picture packetised in any valid way into a wrapping run of numbers, arriving in any order with any duplicates, while other pictures and sources send, are handed out, lost or evicted and polls come at any time as long as the picture or a group in front of it is held, no limit takes the picture itself and no other source takes over: the poll or push that gets to it hands out exactly one unit under its key, with exactly its slices, and no unit before it but of groups that were pending when it began |
| TimedRuns.TimelyPictureYieldsOneUnit | rust/crates/hp-media/src/depacketize.rs:310-321 | the same by the clock: all events within 200 ms of the first and within 25 ms of the picture's last packet, and a poll 25 ms after that one with every earlier group due |
| TimedRuns.RoomyRunIsGentle | rust/crates/hp-media/src/depacketize.rs:240-284 | no condition on the states in between is needed: with at most 64 pictures of known sources and 32 MiB, nothing that is sent within the hold times disturbs the picture |
| TimedRuns.PictureInsideHoldWindow | rust/crates/hp-media/src/depacketize.rs:117-416 | so the picture is handed out under conditions on the first state, on what is sent and on when only, the groups pending at first included |
| QuietRuns.QuietPicture | rust/crates/hp-media/src/depacketize.rs:117-416 | with nothing else around, nothing else is recorded: one unit, and the state is as before but for the known source and its timestamp |
| HandoffTheorems.HandoffKeepsPicture | rust/crates/hp-media/src/depacketize.rs:169-224 | a picture whose first packets were kept back before its source was adopted is not lost: the replayed prefix and the rest, with anything else and polls in between, yield the one unit, and no unit of the new generation comes before it |
| HandoffTheorems.RunKeepsBack | rust/crates/hp-media/src/depacketize.rs:186-206 | the first packets of a source never seen before are all kept, in order, while polls, packets of the old source and packets of others that do not take over come in between |
| HandoffTheorems.SeenThroughout | rust/crates/hp-media/src/depacketize.rs:146-149 | whatever comes in between, the old source was last seen no later than the last event |
| HandoffTheorems.EighthTakesOver | rust/crates/hp-media/src/depacketize.rs:171-185 | after seven packets the eighth takes over as soon as the old source has been quiet for 100 ms |
| HandoffTheorems.NewSourceKeepsPicture | rust/crates/hp-media/src/depacketize.rs:117-224 | so, from its first packet on, a new source's key picture comes out whole as the first unit of the new generation, whatever the old source still had pending or still sent |
| PictureExamples.SwappedFragmentsAreOneUnit | rust/crates/hp-media/src/depacketize.rs:117-416 | a run from a new depacketizer: numbers that wrap, two fragments that arrive swapped, one of them twice, polls in between, give one unit and nothing else |
| PictureExamples.OverlappingPictures | rust/crates/hp-media/src/depacketize.rs:117-416 | a run from a new depacketizer: a picture begins while the one before it is held, which is handed out in the middle, and the next one begins before it ends; it comes out once and whole |
| PictureExamples.TileCanChange | rust/crates/hp-media/src/depacketize.rs:288-291 | a run from a new depacketizer that hands out two units of one source, in one generation, with tiles 0 and 1 |
| PictureExamples.TakeoverHappens | rust/crates/hp-media/src/depacketize.rs:169-224 | a run from a new depacketizer on which a second source takes over, polls and packets of the first in between, and its picture comes out whole |
| GroupFates.PollDecides | rust/crates/hp-media/src/depacketize.rs:287-415 | a poll that gets to a group drops it if it is late, stops if it must wait, and otherwise decides exactly one thing about it, from its packets alone: a loss, with its reason and the epoch one higher, without a marker, with numbers that are not the run ending at the marker, with payloads that do not reassemble, or with slices and no first one; nothing without a slice or before the first key picture; else one unit |
| GroupFates.AssembleFate | rust/crates/hp-media/src/depacketize.rs:322-393 | the same for the group in hand |
| GroupFates.RefusedTakeIn | rust/crates/hp-media/src/depacketize.rs:240-254 | a packet of more than 8 MiB, or that would make more than 32 MiB pending, is one recorded loss, and what is pending stays |
| GroupFates.AdmittedTakeIn | rust/crates/hp-media/src/depacketize.rs:255-284 | any other packet joins its group; a 65th group costs the oldest one, a group of more than 8 MiB or 8192 packets is given up, each of these is exactly one loss, and nothing else is recorded or removed |
| IncompletePictures.TailOfWire | rust/crates/hp-media/src/depacketize.rs:440-522 | the packets of a picture from any one on are those of its later chunks, or begin within a fragmented unit and are refused |
| IncompletePictures.ArrivalsDecide | rust/crates/hp-media/src/depacketize.rs:322-393 | what becomes of a picture is decided by which of its packets have come: no marker, a gap, a tail that is refused, or the units that the tail still holds |
| IncompletePictures.PictureMeetsFate | rust/crates/hp-media/src/depacketize.rs:117-415 | over every run that leaves the picture alone: when its time is over and a poll gets to it, that is decided, once, and nothing was decided about it before |
| IncompletePictures.DamagedPictureIsLost | rust/crates/hp-media/src/depacketize.rs:117-415 | over every such run: exactly one loss is recorded for the picture, and no unit, if and only if the loss is noticed; otherwise no loss is recorded for it |
| IncompletePictures.EndedPictureIsDecided | rust/crates/hp-media/src/depacketize.rs:310-321 | by the clock, within the hold times and budgets of the run: 25 ms after the marker, or 400 ms after the first event without one, a poll gets to the picture and decides it, complete or not |
| IncompletePictures.MissingIsNoticed | rust/crates/hp-media/src/depacketize.rs:322-393 | in a picture whose first unit alone opens it and whose later units are slices every missing packet is noticed |
| IncompletePictures.MissingPacketLosesPicture | rust/crates/hp-media/src/depacketize.rs:117-415 | so, of such a picture of which one packet comes and one never does, no unit is handed out and exactly one loss is recorded |
| LossExamples.GapIsRecorded | rust/crates/hp-media/src/depacketize.rs:330-336 | a run from a new depacketizer: packets 10 and 12 come, 11 does not, and 25 ms after the marker there is exactly one entry about the picture, a gap |
| LossExamples.LostHeadGoesUnnoticed | rust/crates/hp-media/src/depacketize.rs:330-393 | a run from a new depacketizer on which a picture that lost its first packet is handed out, and no loss is recorded |
| ParameterSets.UnitBytes | rust/crates/hp-media/src/depacketize.rs:376-415 | the bytes of every unit: in front of the slices of a key picture all known video, sequence and picture parameter sets in this order, then the slices, each unit behind 0 0 0 1 |
| ParameterSets.ObserveTeaches | rust/crates/hp-media/src/depacketize.rs:142-165 | a packet sets the framing and the parameter sets of its source if and only if it parses under exactly one framing |
| ParameterSets.TakeInLearns | rust/crates/hp-media/src/depacketize.rs:225-232 | taking in a packet learns the sets of its source, and nothing else, until 64 are known |
| ParameterGrammar.PictureTeaches | rust/crates/hp-media/src/depacketize.rs:349-360 | a picture teaches exactly the sets of at most 64 KiB that it carries, until 64 are known |
| ParameterSets.RunRemembers | rust/crates/hp-media/src/depacketize.rs:117-416 | over every run no set is forgotten unless another source takes over |
| SourceAdoption.TakesOverIff | rust/crates/hp-media/src/depacketize.rs:171-177 | a source takes over if and only if there is one tile, the old source was seen at least 100 ms ago, and this is its eighth packet or a later one |
| SourceAdoption.KeptBackIff | rust/crates/hp-media/src/depacketize.rs:186-206 | a packet of another source is kept behind those before it, of which exactly as many of the oldest make room as eight packets and 64 KiB need; nothing else changes |
| SourceAdoption.DiscoveryWaits | rust/crates/hp-media/src/depacketize.rs:287-291 | a poll hands out nothing while a source is missing and 750 ms have not passed |
| Depacketization.Depacketizer.constructor | rust/crates/hp-media/src/depacketize.rs:59-77 | a new depacketizer, with its tile count clamped to 1..16 |
| Depacketization.Depacketizer.Push | rust/crates/hp-media/src/depacketize.rs:117-224 | the method on the fields does exactly the push of the model and returns exactly the units it logs |
| Depacketization.Depacketizer.PushSelected | rust/crates/hp-media/src/depacketize.rs:225-286 | the same for one packet of an adopted source |
| Depacketization.Depacketizer.Poll | rust/crates/hp-media/src/depacketize.rs:287-416 | the same for polling: the loop over the groups in order of arrival |
| Depacketization.Depacketizer.Scan | rust/crates/hp-media/src/depacketize.rs:349-375 | the loop over NAL units learns parameter sets and builds data and flags as specified |
| Depacketization.Depacketizer.Stash | rust/crates/hp-media/src/depacketize.rs:193-205 | the eviction loop and the queue of a candidate source |
| Depacketization.Depacketizer.Insert | rust/crates/hp-media/src/depacketize.rs:261-284 | insertion in place, and the per-group limits |
| Compositing.PixelsShown | rust/crates/hp-media/src/compositor.rs:45-52 | every byte of every canvas pixel is the one at that place of the latest accepted band over it, or zero without one |
| Compositing.AcceptsExactlyFitting | rust/crates/hp-media/src/compositor.rs:30-40 | a band is accepted if and only if its index is below the tile count, its size is 1 to 16384 each way and at most 2^25 pixels of four bytes, and its height is that of the first one; it may be wider than the canvas |
| Compositing.CanComplete | rust/crates/hp-media/src/compositor.rs:41-56 | all bands are drawn if and only if all were updated and the last one starts inside the canvas |
| Compositing.CoverageIff | rust/crates/hp-media/src/compositor.rs:35-56 | with all bands drawn, every pixel is covered if and only if tiles times slot height reaches the canvas height and every band was once as wide as the canvas |
| Compositing.DrawnIsNotCovered | rust/crates/hp-media/src/compositor.rs:53-56 | a band too narrow and a band too low: the answer is `true`, and a pixel was never drawn |
| Compositing.Compositor.constructor | rust/crates/hp-media/src/compositor.rs:10-24 | an all-zero canvas on which nothing has been applied |
| Compositing.Compositor.Update | rust/crates/hp-media/src/compositor.rs:30-57 | exactly the bands that fit are applied, with every copy in bounds; any other changes nothing, with its reason; `true` means that every band has been drawn |
| Compositing.Compositor.CopyRows | rust/crates/hp-media/src/compositor.rs:45-52 | the row loop changes exactly the pixels of the band that are inside the canvas |
| SessionModel.OnUnitOk | rust/crates/macvnc-app/src/backend.rs:373-429 | handling any unit, decoded in any way, keeps the session invariant |
| SessionModel.OnBatchEndOk | rust/crates/macvnc-app/src/backend.rs:431-462 | closing a batch, with or without new losses, keeps it |
| SessionTheorems.ChainMeans | rust/crates/macvnc-app/src/backend.rs:384-417 | a reference chain starts at a key unit for which its decoder was created, and everything since was decoded by it without error |
| SessionTheorems.NonKeyFollowsKey | rust/crates/macvnc-app/src/backend.rs:374-405 | each non-key unit given to a decoder follows a key unit it decoded, of the same generation and loss epoch, with everything in between fed to it without error |
| SessionTheorems.DecodersAreNew | rust/crates/macvnc-app/src/backend.rs:384-389 | a chain is opened only on a decoder that was never used |
| SessionTheorems.PublishedFromChain | rust/crates/macvnc-app/src/backend.rs:418-462 | a published frame is complete and made of exactly the tiles of one unbroken chain |
| SessionTheorems.RunSessionOk | rust/crates/macvnc-app/src/backend.rs:298-462 | every run keeps the invariant, reconfigurations included; dirty implies that no key unit is awaited |
| SessionTheorems.StoppedStays | rust/crates/macvnc-app/src/backend.rs:418-426 | once a tile is refused, nothing later in the batch is handled |
| SessionTheorems.BatchOk | rust/crates/macvnc-app/src/backend.rs:333-462 | one pass of the loop keeps depacketizer and session in agreement: every unit handed out left exactly one mark, in order |
| SessionTheorems.PipelineRuns | rust/crates/macvnc-app/src/backend.rs:333-462 | the same over every run of passes |
| SessionTheorems.PublishedFrameHasNoLoss | rust/crates/macvnc-app/src/backend.rs:431-462 | when a batch ends in a publication, the chain behind the frame runs from a key unit to the last unit handed out, and no loss was recorded since that key unit, not even after the last unit |
| SessionTheorems.PublicationsHaveNoLoss | rust/crates/macvnc-app/src/backend.rs:333-462 | from a new depacketizer and session, over every list of passes: every publication shows a complete frame of all units since some key unit, with no loss recorded since that unit |
| SessionProgress.ComposeIff | rust/crates/macvnc-app/src/backend.rs:418-426 | bands are composed if and only if they all fit, and the canvas is then news exactly if it is complete after the last of them |
| SessionProgress.UnitOutcome | rust/crates/macvnc-app/src/backend.rs:373-429 | what becomes of every unit: awaiting a key, all but key units are skipped, and a key unit gets a new decoder and an empty canvas; in a chain every unit is fed; a clean result is composed and a nonempty one of a key unit ends the wait; an error starts it; no decoder, or a band that does not fit, ends the session |
| SessionProgress.BatchOutcome | rust/crates/macvnc-app/src/backend.rs:431-462 | a loss recorded since the last unit starts the wait for a key; otherwise a session with news publishes its canvas unless cancelled, and has then no more news |
| SessionProgress.RunNews | rust/crates/macvnc-app/src/backend.rs:368-462 | over every run the session is dirty exactly if its canvas is complete, no key is awaited, and a band was composed since the last publication |
| SessionProgress.PublishesIff | rust/crates/macvnc-app/src/backend.rs:431-462 | so after every run a batch publishes the canvas if and only if it has been completed or changed since it was last shown, no key is awaited, no loss is new and nothing is cancelled |
| SessionProgress.KeyUnitIsShown | rust/crates/macvnc-app/src/backend.rs:384-462 | from any session that waits: a key unit decoded cleanly to bands that fit and complete the canvas is fed to one new decoder, ends the wait, and its frame of exactly these bands is published |
| SessionExamples.FirstFrameIsPublished | rust/crates/macvnc-app/src/backend.rs:333-462 | a run from a new depacketizer and a new session that publishes its first frame |
| Compositing.Compositor.New | rust/crates/hp-media/src/compositor.rs:10-24 | a compositor is made if and only if its size is 1 to 16384 each way and at most 2^25 pixels, and it has 1 to 16 tiles; it is then empty |
| VideoLoop.Loop.Reconfigure | rust/crates/macvnc-app/src/backend.rs:298-324 | a changed size or a new offer starts over with a new canvas and a new decoder exactly as in the model, or ends the session with the state as it was; otherwise nothing changes |
| VideoLoop.Loop.HandleUnit | rust/crates/macvnc-app/src/backend.rs:373-429 | the loop body on the mutable variables does exactly the model's step |
| VideoLoop.Loop.HandleUnits | rust/crates/macvnc-app/src/backend.rs:368-430 | the loop over a batch |
| VideoLoop.Loop.CloseBatch | rust/crates/macvnc-app/src/backend.rs:431-462 | the end of a batch: a frame is published exactly when the model publishes one, and its pixels are the canvas |
| ReplayWindow.SetBitBits | rust/crates/hp-media/src/srtp.rs:157 | marking sets one bit of the 128-bit window and no other |
| ReplayWindow.ShiftBits | rust/crates/hp-media/src/srtp.rs:154 | shifting moves every bit up, drops those at 128, and brings in zeros |
| ReplayWindow.ReplayedIff | rust/crates/hp-media/src/srtp.rs:113-118 | an index is refused if and only if it was accepted before or lies 128 or more behind |
| ReplayWindow.AdvanceTracks | rust/crates/hp-media/src/srtp.rs:152-157 | after accepting an index, bit k says exactly whether highest minus k has been accepted |
| SrtpCipher.BuildIv | rust/crates/hp-media/src/srtp.rs:41-49 | the two passes of exclusive-or over overlapping bytes give the specified vector |
| SrtpCipher.IvFormula | rust/crates/hp-media/src/srtp.rs:41-49 | read as a number it is salt * 2^16 XOR SSRC * 2^64 XOR index * 2^16, the formula of section 4.1.1 of RFC 3711 |
| SrtpCipher.NoCarry | rust/crates/hp-media/src/srtp.rs:50-52 | counting blocks never carries out of the low 16 bits for any packet the senders allow |
| SrtpCipher.CounterBlocksDistinct | rust/crates/hp-media/src/srtp.rs:40-53 | counter blocks are pairwise different over all sources, indices below 2^48 and block numbers |
| SrtpCipher.CryptedTwice | rust/crates/hp-media/src/srtp.rs:40-53 | enciphering twice at the same index gives the bytes back |
| SrtpCipher.Crypt | rust/crates/hp-media/src/srtp.rs:40-53 | the in-place pass changes the tail of the buffer as specified and leaves its head |
| SrtpModel.ReceiverRuns | rust/crates/hp-media/src/srtp.rs:89-166 | over any run of datagrams the windows say exactly what was accepted, at most 32 sources exist, and no (source, index) is accepted twice |
| SrtpModel.MarkingOk | rust/crates/hp-media/src/srtp.rs:145-157 | marking an acceptable index keeps that, and the index had not been accepted |
| SrtpModel.EstimateIff | rust/crates/hp-media/src/srtp.rs:96-111 | the estimated index is the true one if and only if the packet is within reach of the highest index |
| SrtpModel.EstimateFails | rust/crates/hp-media/src/srtp.rs:96-111 | 40000 ahead and 40000 behind, the estimate is one rollover period off |
| SrtpStream.Delivered | rust/crates/hp-media/src/srtp.rs:89-204 | what `protect` made, within reach and new, is accepted with its exact index and its original content |
| SrtpStream.StreamTracked | rust/crates/hp-media/src/srtp.rs:89-166 | after any datagrams of this sender and of others the highest index of the source is the largest delivered, and its window holds exactly the accepted ones |
| SrtpStream.OtherSourceIsForeign | rust/crates/hp-media/src/srtp.rs:89-166 | a datagram that names another source is never accepted as one of this source, whatever it holds |
| SrtpStream.StreamDelivered | rust/crates/hp-media/src/srtp.rs:89-204 | under any loss, duplication and reordering within reach, with rejected datagrams and those of other sources in between, a packet is accepted if and only if it is new and less than 128 behind, and then index and payload are exact |
| SrtpBytes.EncipheredBack | rust/crates/hp-media/src/srtp.rs:40-53 | byte j is combined with byte j mod 16 of the cipher's output for salt * 2^16 XOR SSRC * 2^64 XOR index * 2^16, plus j / 16: exactly one plaintext goes with a ciphertext, and it is the one that the code computes |
| SrtpBytes.WireIsSentAs | rust/crates/hp-media/src/srtp.rs:184-204 | what the sender makes, field by field: version 2 and no extras, type, number, timestamp and source in network order, that encipherment of the payload, and the first ten bytes of the code over all of it and the rollover counter |
| SrtpBytes.KeystreamNeverReused | rust/crates/hp-media/src/srtp.rs:184-204 | in any two packets of one salt, each payload byte is combined with the cipher's output for an input that no other block of either packet uses |
| SrtpBytes.OpenedIs | rust/crates/hp-media/src/srtp.rs:119-147 | what is taken out of an authenticated datagram of any layout: contributing sources, extension, marker, type, timestamp and padding |
| SrtpBytes.JudgeIff | rust/crates/hp-media/src/srtp.rs:89-147 | a datagram is accepted if and only if it is authentic under the estimated index, laid out within its length, new to its window, and its source is known or one of at most 32 |
| Srtp.SrtpReceiver.Unprotect | rust/crates/hp-media/src/srtp.rs:89-166 | a datagram is handed out if and only if it is authentic, well laid out and new, with exactly its fields and payload; a rejected one of any kind leaves all receive state unchanged |
| Srtp.SrtpReceiver.Examine | rust/crates/hp-media/src/srtp.rs:89-147 | all checks in order, without touching the state |
| Srtp.SrtpReceiver.Mark | rust/crates/hp-media/src/srtp.rs:148-157 | the window update in place |
| Srtp.SrtpSender.Protect | rust/crates/hp-media/src/srtp.rs:184-204 | a packet is made if and only if the index is below 2^48, the type below 128 and not 64 to 95, and the payload at most 65485 bytes; it takes the next index, its bytes are those of the format, and a refused call changes nothing |
| Srtp.SrtpSender.AudioHeartbeat | rust/crates/hp-media/src/srtp.rs:207-211 | the liveness packet, and a timestamp that wraps only after success |
| Srtp.SrtcpSender.Protect | rust/crates/hp-media/src/srtp.rs:224-237 | reports of 8 to 65521 bytes are protected, byte by byte as the format has it, under strictly increasing indices below 2^31 - 1; a refused call changes nothing |
| Srtp.SrtcpRoundTrip | rust/crates/hp-media/src/srtp.rs:224-237 | a receiver that follows the format gets back index and report from every packet made |
| RecordModel.CbcInverse | rust/crates/hp-protocol/src/record.rs:53-90 | unchaining inverts chaining for any number of blocks |
| RecordModel.SizeFits | rust/crates/hp-protocol/src/record.rs:45-46 | the padded size of every allowed body fits the 16-bit field and is never zero |
| RecordModel.RecordRoundTrip | rust/crates/hp-protocol/src/record.rs:38-106 | a record made in step opens to its body and leaves both chaining values and counters in step |
| RecordModel.FailsIff | rust/crates/hp-protocol/src/record.rs:69-106 | the channel fails if and only if a well-sized record does not verify; every other error changes nothing |
| RecordModel.FailureIsFinal | rust/crates/hp-protocol/src/record.rs:38-81 | after a failure no sequence of calls sends or opens anything, in either direction |
| RecordModel.DrainPrefix | rust/crates/hp-protocol/src/record.rs:118-138 | draining any beginning of a stream gives the bodies of its complete records and leaves a strict part of the next one |
| RecordModel.ChunksPrefix | rust/crates/hp-protocol/src/record.rs:118-138 | the same for any cutting of that beginning into chunks, each appended and drained |
| RecordModel.StreamRoundTrip | rust/crates/hp-protocol/src/record.rs:38-138 | the whole stream in any chunks gives exactly the bodies, nothing pending, both sides in step |
| RecordBytes.DecryptUnchains | rust/crates/hp-protocol/src/record.rs:80-90 | block by block the plaintext is the deciphered block combined with the ciphertext block before it |
| RecordBytes.DecryptIff | rust/crates/hp-protocol/src/record.rs:69-106 | a usable channel opens a record of 32 to 65520 bytes in whole blocks if and only if the last 20 bytes of its plaintext are the hash of its number and all bytes before them, and its length fits; the body is what the length says, and anything else leaves the channel failed |
| RecordBytes.DecryptRefuses | rust/crates/hp-protocol/src/record.rs:69-79 | every other record is refused unread, with its reason, and changes nothing |
| RecordBytes.EncryptIs | rust/crates/hp-protocol/src/record.rs:38-68 | a record is made if and only if the channel is usable, the number below 2^32 - 1 and the body at most 65498 bytes; its plaintext is length, body, zeros to the block and that hash |
| RecordBytes.AuthenticDetermines | rust/crates/hp-protocol/src/record.rs:61-99 | if the hash is injective, two authentic plaintexts that end alike have one number and one content |
| RecordBytes.MalformedIsRefused | rust/crates/hp-protocol/src/record.rs:118-138 | a length field below 32 or off the block ends the channel as soon as it is there |
| RecordLayer.Layer.EncryptBlocks | rust/crates/hp-protocol/src/record.rs:53-60 | the block loop enciphers the buffer in place as chained encryption of its old content, and carries the last block over |
| RecordLayer.Layer.DecryptBlocks | rust/crates/hp-protocol/src/record.rs:80-90 | the same for deciphering |
| RecordLayer.Layer.Encrypt | rust/crates/hp-protocol/src/record.rs:38-68 | the method on the fields does exactly the model's encryption, error for error |
| RecordLayer.Layer.Decrypt | rust/crates/hp-protocol/src/record.rs:69-106 | the same for decryption, the failure mark included |
| RecordLayer.Layer.DrainRecords | rust/crates/hp-protocol/src/record.rs:118-138 | the cursor loop computes the recursive drain; an error leaves the buffer as it is |
| OutboundModel.PushOk | rust/crates/hp-protocol/src/control_io.rs:20-28 | a record is accepted if and only if the queue then holds at most 512 KiB; it is appended, or nothing changes |
| OutboundModel.FlushConserves | rust/crates/hp-protocol/src/control_io.rs:29-66 | one flush loses and reorders nothing, writes at most 64 KiB and calls the writer at most 128 times |
| OutboundModel.RunConserves | rust/crates/hp-protocol/src/control_io.rs:20-66 | over any interleaving of pushes and flushes and any writer, bytes written followed by bytes queued are everything accepted, and the byte counter is exact |
| OutboundModel.FlushStops | rust/crates/hp-protocol/src/control_io.rs:32-65 | without empty records "closed" is the writer's own answer, and a flush without error has emptied the queue, spent a budget or been told to wait |
| OutboundModel.EmptyRecordReadsAsClosed | rust/crates/hp-protocol/src/control_io.rs:37-41 | a willing writer is taken for closed if and only if an empty record is in front |
| OutboundModel.FlushStall | rust/crates/hp-protocol/src/control_io.rs:42-49 | the stall time is that of a refusal since which nothing was taken, and "stalled" means three seconds of that |
| OutboundModel.EagerFlush | rust/crates/hp-protocol/src/control_io.rs:20-66 | with a writer that keeps up, one flush writes any record whole and leaves the queue empty |
| FlushOutcomes.FlushReports | rust/crates/hp-protocol/src/control_io.rs:29-66 | the queue knows the first refusal since the writer last took anything; a flush fails as stalled if and only if its last answer is a refusal 3000 ms or more after that one, and the other answers decide likewise |
| FlushOutcomes.FlushVerdict | rust/crates/hp-protocol/src/control_io.rs:29-66 | one flush by numbers: at most 64 KiB in at most 128 calls, all but the last of which let it go on, and why it ended |
| Outbound.Outbound.Push | rust/crates/hp-protocol/src/control_io.rs:20-28 | the method does exactly the model's push |
| Outbound.Outbound.Flush | rust/crates/hp-protocol/src/control_io.rs:29-66 | the budgeted loop does exactly the model's flush, on queue and writer |
| FileMessages.EncodedIsRead | rust/crates/hp-protocol/src/file_transfer.rs:23-38 | a message is encoded if and only if its transfer number is not zero and it fits; it then fits one control body, and scanning that body gives exactly the message |
| FileMessages.ScanInverts | rust/crates/hp-protocol/src/file_transfer.rs:23-207 | scanning encoded messages, with or without other control data behind them, gives exactly those messages and that data |
| FileMessages.ScanIsExact | rust/crates/hp-protocol/src/file_transfer.rs:166-206 | nothing else is accepted: the input is the encoding of what scanning returned |
| FileMessages.ScanResumes | rust/crates/hp-protocol/src/file_transfer.rs:164-206 | scanning more bytes continues where the scan of fewer stopped, for all byte strings |
| FileMessages.ScanFails | rust/crates/hp-protocol/src/file_transfer.rs:166-206 | an error in fewer bytes is the same error with more |
| FileMessages.FeedAllIsScan | rust/crates/hp-protocol/src/file_transfer.rs:156-207 | for every cutting of a byte string into nonempty bodies in which no control data ends the scan before the last body, feeding them is scanning it, error for error |
| FileMessages.FeedRoundTrip | rust/crates/hp-protocol/src/file_transfer.rs:156-207 | every cutting of a message stream gives the same messages; control data behind it inside one body comes back intact; nothing stays pending |
| FileMessages.FeedPrefix | rust/crates/hp-protocol/src/file_transfer.rs:156-207 | part of a stream gives its complete messages and leaves a strict part of the next one |
| FileMessages.BacklogNeverFires | rust/crates/hp-protocol/src/file_transfer.rs:160-163 | whatever arrives in bodies that fit a record, the backlog guard never fires |
| FileTransfer.RequestLayout | rust/crates/hp-protocol/src/file_transfer.rs:23-53 | every byte of every request, for all paths and sessions, in both directions |
| FileTransfer.MetadataAnnouncesSize | rust/crates/hp-protocol/src/file_transfer.rs:55-149 | both metadata messages of an upload can be sent and both announce the size they were made for |
| FileTransfer.Announces | rust/crates/hp-protocol/src/file_transfer.rs:55-149 | a message announces n bytes if and only if its size, count, mode and name-length fields are those that an upload of n bytes writes; whatever else it holds, and whatever rule decides on names |
| FileTransfer.RequestIff | rust/crates/hp-protocol/src/file_transfer.rs:40-53 | a request is made if and only if the path is absolute, at most 4096 bytes, without a zero and without a component of two dots, and the session is not 0 |
| FileLayouts.WireLayout | rust/crates/hp-protocol/src/file_transfer.rs:23-38 | the header of every message, byte by byte |
| FileLayouts.ScanReads | rust/crates/hp-protocol/src/file_transfer.rs:166-206 | what scanning makes of every input: a whole message in front is read by its fields, and a wrong subtype, length or version is refused in this order, with the limits as numbers |
| FileLayouts.MetadataIff | rust/crates/hp-protocol/src/file_transfer.rs:55-78 | metadata is written if and only if the name has 1 to 255 bytes that the rule allows, the size 32 bits, and the session is not 0 |
| FileLayouts.SizeAnnounced | rust/crates/hp-protocol/src/file_transfer.rs:119-149 | which metadata announces which size, by the places and values of its bytes |
| FileTransfer.Decoder.Feed | rust/crates/hp-protocol/src/file_transfer.rs:156-207 | the loop with its cursor does exactly the model's feed |
| TransferModel.UploadDataCarries | rust/crates/macvnc-app/src/transfer.rs:353-363 | however reads are cut, the data messages carry the file from the position to its announced size |
| TransferModel.UploadSucceeds | rust/crates/macvnc-app/src/transfer.rs:326-369 | an upload of an unchanging file whose reads return something sends everything |
| TransferModel.UploadDownloads | rust/crates/macvnc-app/src/transfer.rs:341-457 | what an upload sends after its request is accepted by a download, which publishes identical bytes, for every file and every cutting of its reads; and all of it fits control bodies |
| FileLayouts.UploadLayout | rust/crates/macvnc-app/src/transfer.rs:341-369 | everything a complete upload sends, by kinds, arguments and bytes: request 2, info 100, item 101 with mode 100644 and name, data 102 of at most 32 KiB that is exactly the file, end 104 |
| TransferModel.FailedUploadIsNotPublished | rust/crates/macvnc-app/src/transfer.rs:341-369 | an upload that fails by itself, because the file changed or was shorter, never sends the end, and no receiver publishes any part of it |
| TransferModel.UploadBegins | rust/crates/macvnc-app/src/transfer.rs:341-352 | whatever comes of an upload, the first thing it sends is the request that offers the path |
| TransferModel.PublishedMeans | rust/crates/macvnc-app/src/transfer.rs:400-457 | whatever is published is the data received, its length is what every metadata message announced, and the one item message came before any byte |
| TransferModel.CompletePublishes | rust/crates/macvnc-app/src/transfer.rs:400-457 | conversely every such sequence is published: together, an if and only if |
| Transfer.Worker.SendData | rust/crates/macvnc-app/src/transfer.rs:353-363 | the read loop sends exactly the data messages of the model, or, when it is stopped, a beginning of them |
| Transfer.Worker.Upload | rust/crates/macvnc-app/src/transfer.rs:317-380 | unless stopped by cancellation, a closed session, a time limit or a read error, the worker sends exactly the messages of the model and succeeds only on the other side's confirmation; when stopped, it has sent a beginning of them |
| Transfer.Worker.Download | rust/crates/macvnc-app/src/transfer.rs:381-457 | a file appears only when complete, with exactly its bytes, never over an existing one, even one that appears meanwhile; every error leaves all files as they were; unless stopped it appears whenever it should; and what is sent to the other side is exactly one request of kind 1, byte by byte, if the path can be asked for and the destination is free |
| ControlModel.RunSends | rust/crates/hp-protocol/src/lib.rs:335-401 | over every run of one end, requests sent while interpreting control bodies included, bytes written and queued together are exactly the record stream of the bodies accepted |
| ControlModel.SendOk | rust/crates/hp-protocol/src/lib.rs:335-347 | one send, succeeding or not, keeps that |
| ControlTheorems.EagerSends | rust/crates/hp-protocol/src/lib.rs:335-347 | with a writer that keeps up, every list of allowed bodies is sent without error and nothing stays queued |
| ControlTheorems.SortIsFeed | rust/crates/hp-protocol/src/lib.rs:383-395 | splitting opened bodies into files and control data is feeding them, up to the event limit and refused control data, and what is sent on the way does not disturb it |
| ControlTheorems.RunCatches | rust/crates/hp-protocol/src/lib.rs:364-401 | over every run of the receiving end what is handed out is a beginning of what was sent, and no error is blamed on the stream: no framing, authentication or backlog error |
| ControlTheorems.Delivered | rust/crates/hp-protocol/src/lib.rs:335-401 | two ends, any runs, any chunks: everything that arrives is handed out or waits, exactly and in order |
| ControlTheorems.FileArrives | rust/crates/hp-protocol/src/lib.rs:335-401 | an upload sent through the encrypted channel, by any runs of both ends, is published on the other side with identical bytes if no error stops the receiver |
| ControlSteps.SendIff | rust/crates/hp-protocol/src/lib.rs:335-347 | a body is sent if and only if the channel is usable, the body at most 65498 bytes, and its record fits 512 KiB with what is queued; its record then follows all that was written and queued, and otherwise nothing does |
| ControlSteps.SendFileIff | rust/crates/hp-protocol/src/lib.rs:349-356 | bulk data is sent under the same condition if it starts with 0x22 and at most 64 KiB are queued; with more it yields without an error or a change |
| ControlSteps.RoomForOne | rust/crates/hp-protocol/src/lib.rs:349-356 | with at most 64 KiB queued there is room for any body |
| ControlSteps.CollectReads | rust/crates/hp-protocol/src/lib.rs:366-382 | up to eight reads of up to 8192 bytes are appended in order, and what ends them decides the result |
| ControlSteps.CollectOverflows | rust/crates/hp-protocol/src/lib.rs:366-382 | more than 4 MiB without a complete record end the connection |
| ControlSteps.SortAnswers | rust/crates/hp-protocol/src/lib.rs:383-395 | every control body is answered in order, as it is met |
| ControlSteps.PollInOrder | rust/crates/hp-protocol/src/lib.rs:364-401 | a poll flushes, reads, answers and offers in this order, and stops at its first error |
| FloodTheorems.SortFloods | rust/crates/hp-protocol/src/lib.rs:383-391 | splitting bodies ends the connection if and only if the messages that wait and those that the bodies complete are more than 256 |
| FloodTheorems.FloodNeedsMany | rust/crates/hp-protocol/src/lib.rs:383-391 | and never otherwise, whatever the control bodies among them come to |
| FloodTheorems.CalmRun | rust/crates/hp-protocol/src/lib.rs:357-401 | over every run of an end that polls, takes its messages and sends nothing: no error if and only if in every poll at most 256 messages wait or are completed; otherwise that limit is the error |
| FloodTheorems.FewComplete | rust/crates/hp-protocol/src/lib.rs:366-391 | with one message in each body, a poll of at most 12,800 bytes completes at most 256 |
| FloodTheorems.FloodInput | rust/crates/hp-protocol/src/lib.rs:383-391 | 257 one-byte data messages are 12,850 bytes; two reads in one poll take them all, and the connection ends |
| FloodTheorems.FileArrivesInTime | rust/crates/hp-protocol/src/lib.rs:335-401 | with a writer that keeps up and a receiver that takes its messages after every read, both ends run without error and the upload is published with identical bytes, however the stream is cut into reads |
| Control.Connection.Send | rust/crates/hp-protocol/src/lib.rs:335-347 | encryption, queueing and flushing in place do exactly the model's send |
| Control.Connection.TrySendFile | rust/crates/hp-protocol/src/lib.rs:349-356 | bulk data yields before anything is encrypted when more than 64 KiB are queued |
| Control.Connection.TakeFiles | rust/crates/hp-protocol/src/lib.rs:357-359 | hands out every waiting message once |
| Control.Connection.Obey | rust/crates/hp-protocol/src/lib.rs:402-427 | a control body is refused, or accepted with at most one body sent in answer, exactly as in the model |
| Control.Connection.ReadSocket | rust/crates/hp-protocol/src/lib.rs:366-382 | at most eight reads are appended, in order, with their errors |
| Control.Connection.SortBodies | rust/crates/hp-protocol/src/lib.rs:383-395 | the loop over the bodies does exactly the model's split, sends what interpreting a body asks for, and stops at the first error |
| Control.Connection.Poll | rust/crates/hp-protocol/src/lib.rs:364-401 | flush, read, drain and split, the sends on the way, and the media offer again when it is due, exactly as in the model |
| InstallModel.ApplyKeeps | rust/crates/macvnc-app/src/updater/install.rs:190-205 | at every step of every apply each original entry is at its place or in the backup, unmanaged entries are untouched, and the last name is new only if all are |
| InstallModel.ApplyInstalls | rust/crates/macvnc-app/src/updater/install.rs:190-205 | an apply without failure installs the whole package and keeps what it replaced |
| InstallModel.RollbackRestores | rust/crates/macvnc-app/src/updater/install.rs:206-230 | for every list of names and every failure point, one rollback that reports no failure restores the installation exactly; every step on the way keeps the originals, even a failing one |
| InstallModel.SecondRollbackIff | rust/crates/macvnc-app/src/updater/install.rs:208-216 | rolling back again keeps the installation if and only if no managed entry that existed had been replaced |
| InstallModel.SecondRollbackDeletes | rust/crates/macvnc-app/src/updater/install.rs:208-216 | the smallest update on which it deletes a restored entry |
| InstallModel.RollbackNotMixed | rust/crates/macvnc-app/src/updater/install.rs:208-224 | unless undoing it fails, the last name is undone first and is never new again during a rollback |
| InstallOutcomes.ApplyOutcome | rust/crates/macvnc-app/src/updater/install.rs:190-205 | an apply fails if and only if an operation that it needs does; it stops at the first such entry, and every entry before it is new, that one in its place or in the backup, and every later one untouched |
| InstallOutcomes.RollbackOutcome | rust/crates/macvnc-app/src/updater/install.rs:206-230 | a rollback undoes every entry, the last one first, whatever became of the others; each comes to what its own two operations make of it, and the rollback fails if and only if an operation that it needs did |
| InstallOutcomes.NoFailure | rust/crates/macvnc-app/src/updater/install.rs:190-230 | without any failure both succeed: the update is installed, and then undone |
| InstallOrder.NamesInOrder | rust/crates/macvnc-app/src/updater/install.rs:153-170 | the managed names are the first path components, each once, in the order of names, with `macvnc-app.exe` last |
| InstallOrder.NewExecutableIsLast | rust/crates/macvnc-app/src/updater/install.rs:169-205 | at every step of every apply a new executable means that every managed entry is already new |
| Install.Transaction.Apply | rust/crates/macvnc-app/src/updater/install.rs:190-205 | the loop of moves does exactly the model's apply, failure by failure |
| Install.Transaction.Rollback | rust/crates/macvnc-app/src/updater/install.rs:206-230 | the reverse loop does exactly the model's rollback, going on after failures |
| Install.Transaction.Remove | rust/crates/macvnc-app/src/updater/install.rs:129-144 | removing what is not there succeeds and changes nothing; a failed removal may leave anything of that entry only |
| Protobuf.WriteVarint | rust/crates/hp-protocol/src/offer.rs:8-16 | the shifting loop writes the base-128 digits |
| Protobuf.ReadVarintAt | rust/crates/hp-protocol/src/metadata.rs:12-25 | the accumulator loop computes the digit-by-digit reading, always fits 64 bits, and never reaches its final error |
| Protobuf.VarintBounds | rust/crates/hp-protocol/src/metadata.rs:12-25 | at most ten bytes are read, and the value is below 2^64 |
| Protobuf.VarintRoundTrip | rust/crates/hp-protocol/src/offer.rs:8-16 | reading inverts writing for every 64-bit value |
| Protobuf.VarintShortest | rust/crates/hp-protocol/src/metadata.rs:12-25 | longer spellings are accepted too; the writer's is the shortest |
| Protobuf.ParseJoins | rust/crates/hp-protocol/src/metadata.rs:27-48 | parsing distributes over concatenation, the field limit carried along |
| Protobuf.FieldsInvert | rust/crates/hp-protocol/src/offer.rs:17-27 | within the limits, the fields written come back as they were meant if and only if all their numbers are from 1 to 2^61 - 1 |
| ProtobufGrammar.VarintIff | rust/crates/hp-protocol/src/metadata.rs:12-25 | a number is read if and only if at most ten bytes spell it, all but the last with the top bit, the tenth 0 or 1 |
| ProtobufGrammar.FieldIff | rust/crates/hp-protocol/src/metadata.rs:33-46 | a field is read if and only if its bytes spell it: a tag with a number of at least 1, and a varint, 8 bytes, a length with as many bytes, or 4 bytes behind wire types 0, 1, 2 and 5 |
| ProtobufGrammar.FieldsIff | rust/crates/hp-protocol/src/metadata.rs:27-48 | an input is accepted if and only if it has at most 1 MiB and spells at most 4096 fields one behind the other, and it is read as exactly those |
| Protobuf.FieldsParse | rust/crates/hp-protocol/src/metadata.rs:27-48 | what was written parses if and only if no number is a multiple of 2^61, and then with the numbers reduced |
| Protobuf.NumberLost | rust/crates/hp-protocol/src/offer.rs:17-19 | field 2^61 + 1 is read back as field 1 |
| Protobuf.ReadFieldAt | rust/crates/hp-protocol/src/metadata.rs:33-46 | one turn of the field loop at the cursor |
| Protobuf.ReadFields | rust/crates/hp-protocol/src/metadata.rs:27-48 | the field loop computes the parser's specification, limits included |

## Left out

- AES, HMAC, SHA-1 and key derivation (`derive`): parameters with a size and, for the block cipher, an inverse.
- Saturation of 64-bit counters (generation, loss epoch, presentation number) and the reporting counters: unbounded
  naturals, or not modelled.
- Pictures of which no packet arrives: the depacketizer cannot see that they are lost.
- IncompletePictures.DamagedPictureIsLost: the picture that loses packets is one that could be sent, cut into valid
  packets by the format; what a group of any other packets comes to is `GroupFates.PollDecides`.
- PictureTheorems.PictureYieldsOneUnit: one marker per picture and one framing while it is pending, because two markers in
  one group let the last arrival win, and an aggregate that shows the other framing changes how the payloads are read.
- HandoffTheorems.NewSourceKeepsPicture: the packets kept back are those of one picture and take over with the eighth,
  because a candidate that sends on while the old source does loses its oldest packets.
- Decoding itself, and cancellation in the middle of a batch, which returns from the session at once.
- Sockets and their errors beyond "would block", "interrupted", "closed" and "failed"; the handshake; layout recovery, of
  which only "the media offer is due again" is left, as an argument; how `inspect_control` reads a control body: whether
  it refuses it, and what it sends in answer, is a parameter of each poll.
- Control.Connection.Poll: a run ends at its first error, as the caller drops the connection.
- FileTransfer.Announces: which names beyond their length are acceptable is the parameter `rule`, because the checks of
  `validate_name` are a fixed list of patterns.
- Transfer.Worker.Upload: which operation is stopped, and why, is the parameter `stops`; jobs of the worker run one after
  another, because the thread that delivers replies is not part of this model.
- Transfer.Worker.Download: the staging file is a variable until it is published, one file may appear at the destination
  meanwhile, and canonical paths are not modelled.
- Install.Transaction.Apply: names are compared exactly, entries are plain, and staging was verified before, so links and
  the case rules of a file system are not modelled; a rename that fails changes nothing.
- Keyboard, clipboard, profile, statistics, RTCP report builders, compressed answers and the user interface.
