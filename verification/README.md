# Verified model of the CS7 streamer and the heartbeat store

The repository connects musicians over the network. Its streaming box, the CS7 (`mqtt/cs7`), captures audio into
packets, carries them over two message queues and UDP, plays what arrives, and is steered by a command loop over
memory-mapped registers. The platform (`platform`) keeps nested maps in one atom and decides from heartbeats whether a
teleporter is online. This project models the parts of both that hold state, in Dafny, and proves what every run of
them keeps. `dafny verify dfyconfig.toml` checks it.

## How it is built

Code that changes things in place is a class or a method over arrays; each such method is proved to leave exactly the
state that a specification function gives for the old one, and the lemmas about whole runs are about those functions.

| files | what they model |
|---|---|
| CaptureFill, Samples, Subsequences | the retry loops of `read_stream`, the loop that fills a packet, 32-bit samples in messages, in-order subsequences |
| Pipeline, PipelineProofs, PipelineLiveness, ChannelProofs, Streamer | the four audio threads, two bounded queues and the network as a state machine over the steps between blocking calls; bounds and conservation; what can always still be done; what is played against what was captured; the program's variables |
| OledCells, Oled | the packed frame buffer of the display and its mirror in the device |
| Bytes, AddressText, AddressRoundTrips, NumberReading | the two address parsers and how they read numbers, `print_ip`, and the packing of octets into words |
| AudioControl, PacketTimeLimits, EthRegisters | three register groups with their read-mask-write helpers |
| Commands, CommandProofs, PeripheralProofs, Board | the register-writing commands of the command loop |
| CodecWords, CodecDevice, CodecTrace, CodecStartup, Codec | the codec's transaction layer against a device that is slow in every finite way |
| MixerDesk, MixerProofs, Mixer | gains, filters, settings and LEDs of the command loop |
| Store, TpStatus | the platform's store and heartbeat liveness |

A queue behaves as `mq_send()` and `mq_receive()` of POSIX.1-2017 (IEEE Std 1003.1-2017, System Interfaces) prescribe: a
send waits while the queue is full, a receive while it is empty, so a blocked call is a step that is not enabled, and a
call that fails is a step of its own. The codec, its busy times, its PLL and what a reset does to its registers are
arbitrary functions.

## Where the code does not do what one would expect

Each of these is stated as a lemma with the exact condition under which the expected property holds.

- The capture loop skips an index when the right FIFO is reported empty and keeps the old slot when the left one is. A
  packet is the fresh alternating one if and only if no report was made during its passes, and the loop stores past the
  array if and only if a right sample meets the last slot, which the readings tell beforehand
  (`AlternatesIffNoEmptyReport`, `OverrunIffLastSlotMetByRight`, with `OneMissingRightOverruns` as an instance).
  No sample changes channel if and only if no pass with a sample comes at an odd index (`SamplesKeepChannelIff`).
  Left-empty reports alone only leave stale left samples, so the right channel keeps its order with them (`RightIntegrity`,
  `RightIsAWire`) and nothing crosses over (`NothingCrossesOverWhenLeftEmpty`). Conservation, bounds and equal feeding of
  both DAC channels hold of every run, up to a pass that would store past the array.
- The left retry loop tests `>` and the right one `==` (`ChannelsAgreeIffFirstBelowMark`).
- A datagram with an odd number of whole words plays a right sample that an earlier one left in the buffer
  (`PlaysOwnSamplesIffPairs`, `OddWordIsStale`).
- A sign-extended character fills the rest of its word (`TouchesOnlyItsSlotIff`).
- `getgip`, `getmask` and `getport` read another register than their `set` counterparts write (`WrongIdentifierReads`,
  `WrongIdentifierReadsLatest`).
- Sync traffic clears the low bit of the MAC's third octet (`MacReadsBackIff`), and the number `read_eth_mac` returns
  has lost its two leading octets (`MacNumberRightIff`).
- The getter of the difference limit returns 32 bits (`DiffLimitSurvivesIff32Bits`).
- Initialisation requests gain 30 on every channel while the global gain is 4, shows 5, and does not set the LEDs
  (`CoherentIffCommanded`, `ShownIffCommanded`, `LedsShowGlobalIff`).
- A clock that is set back can hide a heartbeat that is still within the timeout (`ClockStepHidesHeartbeat`); the
  answers are right if and only if the latest heartbeat is also the newest (`FaithfulIffLatestIsNewest`).
- A write with an empty path lands under the nil key (`EmptyPathWritesNilKey`); a write is read back if and only if its
  path is not empty (`ReadBackIff`).

## Model

| member | source | states |
|---|---|---|
| CaptureFill.ReadStream | mqtt/cs7/stream_control.c:39-59 | In the words of the port: on the left the word returned is the first one not above 0xFF000000, on the right the first one other than 0xFF000000; everything read before it was retried |
| CaptureFill.DeliverableIff | mqtt/cs7/stream_control.c:45-54 | Which words a channel can deliver at all: on the left exactly those up to the empty mark, the mark itself included, on the right all but the mark |
| CaptureFill.ChannelsAgreeIffFirstBelowMark | mqtt/cs7/stream_control.c:45-54 | On the same register contents the left and the right read return the same word if and only if the first word lies below the empty mark |
| CaptureFill.FillPacket | mqtt/cs7/ui_control.c-slp:139-179 | The fill loop over its array leaves exactly what `FillLoop` specifies, including the pass in which it would store past the end; sixty-four readings always end it |
| CaptureFill.OverrunIffLastSlotMetByRight | mqtt/cs7/ui_control.c-slp:139-171 | From the readings alone: the loop stores past the end if and only if some pass with a right sample comes when twice the passes before it, less their right-empty reports, leave just one slot |
| CaptureFill.UsedWhenOverrun | mqtt/cs7/ui_control.c-slp:139-171 | It is that pass that stores past the end |
| CaptureFill.OneMissingRightOverruns | mqtt/cs7/ui_control.c-slp:161-171 | It happens: one right-empty report in the first pass of a packet, none after it, and pass 33 stores past the 64 slots |
| CaptureFill.OverrunIffOddRightEmpties | mqtt/cs7/ui_control.c-slp:139-171 | As a corollary over the passes made: it is a matter of the parity of the right-empty reports |
| CaptureFill.PlainFill | mqtt/cs7/ui_control.c-slp:139-179 | Without empty reports the loop takes one pass per pair and puts pass j's samples at slots i+2j and i+2j+1, leaving the slots before i alone |
| CaptureFill.OnlyReportedSamples | mqtt/cs7/ui_control.c-slp:141-171 | Every slot of a finished packet holds its old content or a sample from a pass that did not report that channel empty |
| CaptureFill.PassesStand | mqtt/cs7/ui_control.c-slp:139-179 | From any point of the loop on, every pass stands in the finished packet where it was stored, and no later pass overwrites it |
| CaptureFill.EveryPassStands | mqtt/cs7/ui_control.c-slp:139-179 | The finished packet from the readings alone: pass p has slot 2p less the right-empty reports before it, which holds its left sample, or what it held if the left FIFO was reported empty; the next slot holds its right sample unless that was reported empty; the passes made exactly fill the packet |
| CaptureFill.NoEmptyReportAlternates | mqtt/cs7/ui_control.c-slp:139-179 | Without empty reports the packet holds this packet's left samples in the even slots and its right samples in the odd ones, in order |
| CaptureFill.AlternatingMeansNoEmptyReport | mqtt/cs7/ui_control.c-slp:141-171 | A packet that alternates like that can only come from passes without an empty report |
| CaptureFill.AlternatesIffNoEmptyReport | mqtt/cs7/ui_control.c-slp:139-179 | Both directions: a fresh, alternating packet is built if and only if neither FIFO was reported empty during its passes |
| CaptureFill.KeepsChannelIff | mqtt/cs7/ui_control.c-slp:139-171 | The same from any point of the loop on: the packet keeps its channels if and only if it did so far and no later pass with a sample comes at an odd index |
| CaptureFill.SamplesKeepChannelIff | mqtt/cs7/ui_control.c-slp:139-171 | From the readings alone: a packet is built with no sample on the wrong channel if and only if no pass with a sample to store comes at an odd index inside the packet; left-empty reports do no harm |
| CaptureFill.MissingRightCrosses | mqtt/cs7/ui_control.c-slp:141-171 | An instance of the failure: a right-empty first pass puts the left sample of the second pass into the right slot 1 |
| CaptureFill.TagsAreTruthful | mqtt/cs7/ui_control.c-slp:139-179 | Naming samples by their pass instead of their value changes nothing about the loop, so the statements about names hold of every stream of values |
| Subsequences.SubseqPositions | mqtt/cs7/ui_control.c-slp:128-272 | What in-order subsequence means: increasing positions at which the elements stand |
| Pipeline.Cut | mqtt/cs7/ui_control.c-slp:251 | What arrives is the datagram, or its first 256 bytes if it is longer |
| PipelineProofs.StepKeepsBounds | mqtt/cs7/ui_control.c-slp:85-272 | Every step of every thread keeps the queues within their message counts, the messages within their buffers and the indices within their arrays |
| PipelineProofs.RunKeepsBounds | mqtt/cs7/ui_control.c-slp:745-774 | In every reachable state of every interleaving the first queue holds at most 512 messages of exactly 256 bytes, the second at most 1024 messages of at most 256 |
| PipelineProofs.IndexChecksAreFree | mqtt/cs7/ui_control.c-slp:215-226 | The model's own index check on the play loop is implied by the bounds, and that on the fill loop by an even index |
| PipelineProofs.StepKeepsLedger | mqtt/cs7/ui_control.c-slp:85-112 | Every step keeps the account of packets and bytes balanced |
| PipelineProofs.Conservation | mqtt/cs7/ui_control.c-slp:85-272 | For all runs: packets built = queued + in hand + sent + `axi_to_net_mq_w_error_count` + `net_send_error_count`, datagrams received = queued + in hand + taken + `net_to_axi_mq_w_error_count`, the byte totals split the same way, the read-error counters take no part, and what was sent or taken is in order |
| PipelineProofs.CountersCountFailures | mqtt/cs7/ui_control.c-slp:85-267 | In every run each of the six error counters equals the number of failures of its own call |
| PipelineLiveness.NextStepAdvances | mqtt/cs7/ui_control.c-slp:85-272 | In every state within bounds that is not drained the step furthest down the line can be taken, without failing, and something has less far to go after it |
| PipelineLiveness.Drain | mqtt/cs7/ui_control.c-slp:85-272 | From every state within bounds the threads can carry everything to the end, with no failing call, nothing captured, lost or injected: queues, hands, network and player are empty then and no loss counter has moved |
| PipelineLiveness.ReachableDrains | mqtt/cs7/ui_control.c-slp:85-272 | So every reachable state can be drained |
| PipelineLiveness.EverythingIsPlayed | mqtt/cs7/ui_control.c-slp:85-272 | When no foreign datagram came in, what has been taken is then played in full, and if nothing had been lost so is every packet built |
| PipelineLiveness.FirstQueueFills | mqtt/cs7/ui_control.c-slp:745-752 | Every number of packets up to 512 is reached in the first queue, with nothing failing |
| PipelineLiveness.SecondQueueFills | mqtt/cs7/ui_control.c-slp:771-774 | Every number of messages up to 1024 is reached in the second queue, with nothing failing |
| PipelineLiveness.FailuresInAnyOrder | mqtt/cs7/ui_control.c-slp:85-272 | Every sequence of failing calls, of any of the six kinds, is the sequence of failing calls of some run, so no failure shuts out another |
| ChannelProofs.CaptureExtends | mqtt/cs7/ui_control.c-slp:139-171 | A pass without empty reports extends the packet under construction by exactly its two samples |
| ChannelProofs.EnqueueMoves | mqtt/cs7/ui_control.c-slp:183-187 | Handing the packet over moves its samples, each with its channel, from the partial packet to the packets built |
| ChannelProofs.StepKeepsNetInOrder | mqtt/cs7/ui_control.c-slp:96-101 | Every step keeps the datagrams received and under way an in-order subsequence of those sent, the missing ones counted |
| ChannelProofs.PlayPairMovesOn | mqtt/cs7/ui_control.c-slp:215-226 | A pass of the play loop plays exactly the next left and right word of the message taken |
| ChannelProofs.TakeStartsMessage | mqtt/cs7/ui_control.c-slp:206 | Taking a message replaces the exhausted one by exactly its own samples |
| ChannelProofs.StepKeepsCaptured | mqtt/cs7/ui_control.c-slp:139-187 | Every step keeps the captured stream equal to the samples of the packets built followed by the partial packet |
| ChannelProofs.StepKeepsPlayed | mqtt/cs7/ui_control.c-slp:202-232 | Every step keeps the samples played plus those of the message in hand equal to the samples of the messages taken |
| ChannelProofs.RunCapturesInOrder | mqtt/cs7/ui_control.c-slp:139-187 | Over every run without empty reports, captured = samples of the packets built + partial packet |
| ChannelProofs.StepKeepsRight | mqtt/cs7/ui_control.c-slp:139-187 | With left-empty reports too, every step keeps that equation for the right channel |
| ChannelProofs.RunKeepsRight | mqtt/cs7/ui_control.c-slp:139-187 | And so does every run |
| ChannelProofs.RunStaysCarried | mqtt/cs7/ui_control.c-slp:85-272 | Whatever the FIFOs report, every run keeps the account balanced, the network in order and the samples played equal to the messages taken |
| ChannelProofs.PlayedComesFromPackets | mqtt/cs7/ui_control.c-slp:85-272 | Whatever the FIFOs report and whatever is lost on the way, what is played is an in-order subsequence of the content of the packets |
| ChannelProofs.ChannelIntegrity | mqtt/cs7/ui_control.c-slp:128-272 | Whatever is dropped at either queue, at the send or by the network, the samples played on a DAC channel are an in-order subsequence of those captured on the same ADC channel; none crosses over |
| ChannelProofs.RightIntegrity | mqtt/cs7/ui_control.c-slp:128-272 | With left-empty reports too, the samples played on the right are an in-order subsequence of those captured on the right |
| ChannelProofs.StepKeepsOnlyBuilt | mqtt/cs7/ui_control.c-slp:85-272 | Every step, resending by the network included, keeps every message anywhere one that was built here and every sample played one of theirs |
| ChannelProofs.RunStaysOnlyBuilt | mqtt/cs7/ui_control.c-slp:85-272 | So does every run, whatever the FIFOs report |
| ChannelProofs.RunKeepsOwned | mqtt/cs7/ui_control.c-slp:139-187 | Over every run without right-empty reports each slot filled or still to be filled on the left, and each filled on the right, holds a sample captured on its channel or, on the left, a word the buffer started with |
| ChannelProofs.NothingCrossesOver | mqtt/cs7/ui_control.c-slp:128-272 | Even when the network loses, duplicates, delays and reorders datagrams at will, every sample played on a DAC channel was captured on the same ADC channel |
| ChannelProofs.NothingCrossesOverWhenLeftEmpty | mqtt/cs7/ui_control.c-slp:128-272 | With left-empty reports too: what is played on the right was captured on the right, and what is played on the left was captured on the left or lay in the capture buffer from the start |
| PipelineProofs.EvenIndexBetweenPasses | mqtt/cs7/ui_control.c-slp:139-171 | Without right-empty reports the fill index is even at every loop head, whatever the left FIFO and the other threads do |
| PipelineProofs.FillLoopStaysInside | mqtt/cs7/ui_control.c-slp:139-171 | So no pass of the fill loop stores outside the packet |
| PipelineProofs.PairsAreInStep | mqtt/cs7/ui_control.c-slp:215-232 | A stretch of whole pairs holds as many left as right samples |
| PipelineProofs.ChannelsPlayedInStep | mqtt/cs7/ui_control.c-slp:215-232 | Over every run the pairwise play steps keep both DAC channels at the same number of samples |
| ChannelProofs.LosslessIsAWire | mqtt/cs7/ui_control.c-slp:85-272 | As long as the three loss counters are zero and the network has lost nothing, captured = played + message in hand + second queue + network + first queue + hands + partial packet, in order, in every reachable state |
| ChannelProofs.RightIsAWire | mqtt/cs7/ui_control.c-slp:85-272 | With left-empty reports too, that equation holds of the right channel |
| ChannelProofs.PacketsArePlayedOrUnderWay | mqtt/cs7/ui_control.c-slp:85-272 | Whatever the FIFOs report, with nothing lost the content of the packets is what was played followed by what is under way |
| ChannelProofs.BuiltIsTakenAndOnTheWay | mqtt/cs7/ui_control.c-slp:85-272 | With nothing lost the packets built are exactly those taken followed by those under way |
| Streamer.Streamer.constructor | mqtt/cs7/ui_control.c-slp:131-134 | Thread start: empty queues, zero counters, both local buffers with arbitrary content |
| Streamer.Streamer.CapturePass | mqtt/cs7/ui_control.c-slp:139-171 | One pass of the fill loop takes exactly the specified step, or reports that it is about to store past the array, exactly when that is so |
| Streamer.Streamer.Enqueue | mqtt/cs7/ui_control.c-slp:183-187 | Successful or failing mq_send of the packet takes exactly the specified step |
| Streamer.Streamer.TakeToSend | mqtt/cs7/ui_control.c-slp:87-94 | mq_receive in the sending thread takes exactly the specified step |
| Streamer.Streamer.Send | mqtt/cs7/ui_control.c-slp:96-110 | The UDP send and its two counters take exactly the specified step |
| Streamer.Streamer.Receive | mqtt/cs7/ui_control.c-slp:251-259 | The UDP receive and its counters take exactly the specified step |
| Streamer.Streamer.EnqueueReceived | mqtt/cs7/ui_control.c-slp:260-266 | mq_send of the datagram takes exactly the specified step |
| Streamer.Streamer.CopyToPlayBuffer | mqtt/cs7/ui_control.c-slp:206 | mq_receive puts byte k of the message at place k of the thread's buffer and leaves every place past the message as it was |
| Streamer.Streamer.TakeToPlay | mqtt/cs7/ui_control.c-slp:206-213 | mq_receive in the playing thread takes exactly the specified step |
| Streamer.Streamer.PlayPass | mqtt/cs7/ui_control.c-slp:215-232 | One pass of the play loop plays a left and a right word and advances by two |
| Streamer.Streamer.PlayMessage | mqtt/cs7/ui_control.c-slp:215-232 | For every length from 0 to 256 the loop terminates inside the buffer having played the message's words, rounded up to a whole pair, as many on the left as on the right |
| Streamer.Streamer.Disturb | mqtt/cs7/ui_control.c-slp:96-101 | The network losing, duplicating or delaying a datagram takes exactly the specified step |
| Streamer.Streamer.Perform | mqtt/cs7/ui_control.c-slp:85-272 | Every step of every thread, and of the network, changes the program state exactly as specified and keeps the bounds |
| Streamer.PlaysOwnSamplesIffPairs | mqtt/cs7/ui_control.c-slp:215-232 | A message is played as exactly its own samples if and only if it brings a whole number of left/right pairs |
| Streamer.BufferHoldsWhatWasLeft | mqtt/cs7/ui_control.c-slp:206 | After every run each place of the playing thread's buffer holds the byte of the latest message that reached so far, and before any the byte it held at thread start |
| Streamer.PlaysWordAfterMessage | mqtt/cs7/ui_control.c-slp:215-232 | A message with a left word short of its right word is played as its own words and then, on the right, the buffer's word behind them |
| Streamer.OddWordIsStale | mqtt/cs7/ui_control.c-slp:206-232 | Over every run that right word is, byte by byte, what the latest longer message left there, but for the bytes the message itself still brings |
| OledCells.OrIntoOwnSlot | mqtt/cs7/zedboardOLED.c:114-138 | Printing ORs the character into its own slot of the word, sign-extended or not |
| OledCells.OrLeavesOtherSlots | mqtt/cs7/zedboardOLED.c:114-138 | A 7-bit character leaves the other slots alone, and any character leaves the earlier ones alone |
| OledCells.TouchesOnlyItsSlotIff | mqtt/cs7/zedboardOLED.c:114-138 | The other three characters of the word survive if and only if the character is not sign-extended or every later slot is already 0xFF |
| OledCells.SignSpills | mqtt/cs7/zedboardOLED.c:114-138 | A sign-extended character turns every later slot of the word into 0xFF |
| OledCells.StampRefinesSlots | mqtt/cs7/zedboardOLED.c:136-138 | On characters that are not sign-extended the packed word behaves as four independent cells |
| OledCells.CharRefinesGrid | mqtt/cs7/zedboardOLED.c:74-138 | Printing a character at (page, position) ORs it into that cell of the 4x16 grid and changes no other; off the screen it changes nothing |
| OledCells.MessageRefinesGrid | mqtt/cs7/zedboardOLED.c:170-186 | A message ORs its first 16 characters into its page, cell by cell, and changes no other cell; the rest is cut off |
| OledCells.CharSparesUnusedEntries | mqtt/cs7/zedboardOLED.c:137-138 | The array entries that no cell uses are not written by a character |
| OledCells.MessageSparesUnusedEntries | mqtt/cs7/zedboardOLED.c:170-186 | Nor by a message |
| OledCells.BlankShowsNothing | mqtt/cs7/zedboardOLED.c:39-41 | After clearing every cell decodes to 0 |
| OledCells.CellShowsOrOfPrinted | mqtt/cs7/zedboardOLED.c:35-186 | After clearing and any sequence of messages each cell is the OR of all characters printed there |
| Oled.Display.ScreenShowsCells | mqtt/cs7/zedboardOLED.c:136-150 | On the device the character at page p and position q is byte q mod 4 of word 4p + q/4 |
| Oled.Offset | mqtt/cs7/zedboardOLED.c:89-111 | Page to buffer offset, -1 for a page that does not exist |
| Oled.Display.WriteOut | mqtt/cs7/zedboardOLED.c:140-150 | Device word k equals array entry 4k for all 16 words, and the strobe ends at 0 |
| Oled.Display.Clear | mqtt/cs7/zedboardOLED.c:35-55 | The array is all zero and the device mirrors it |
| Oled.Display.PrintChar | mqtt/cs7/zedboardOLED.c:74-154 | The array becomes what `AfterChar` specifies; success is reported if and only if the place is on the screen, and then the device mirrors the array, otherwise it is untouched |
| Oled.Display.PrintMessage | mqtt/cs7/zedboardOLED.c:170-186 | The array becomes what `AfterMessage` specifies, the device mirrors it as soon as one character was on the screen, and success is reported always |
| AddressText.PiecesOfPrefix | mqtt/cs7/ui_control.c:3175-3185 | What the loop has seen so far splits into the fields written and the field being collected |
| AddressText.CharacterStep | mqtt/cs7/ui_control.c:3177-3184 | One character keeps the counters, the scratch buffer and the octets in step with that split, inside both arrays |
| AddressText.ExtractionEnds | mqtt/cs7/ui_control.c:3175-3185 | At the end of the text, trailing dot included, the fields written are all the fields |
| AddressText.Extract | mqtt/cs7/ui_control.c:3169-3190 | For every text of at most 255 characters with at most four (six) fields of at most four characters the loop terminates, stays inside `buf` and `oct`, and every octet is its field's value modulo 256 |
| AddressRoundTrips.PackUnpack | mqtt/cs7/ui_control.c:1073 | The shift-and-OR packing of the four bytes of a word gives the word back |
| AddressRoundTrips.UnpackPack | mqtt/cs7/ui_control.c:1073 | And the four bytes of packed octets are the octets |
| AddressRoundTrips.PackIpPlaces | mqtt/cs7/ui_control.c:1073 | By place: the first octet is the top byte of the word, the last the bottom one |
| AddressRoundTrips.ReadDecimal | mqtt/cs7/ui_control.c:3183 | Every number survives being printed and read in decimal |
| AddressRoundTrips.OctetOfDecimal | mqtt/cs7/ui_control.c:3183 | A printed octet converts to itself |
| AddressRoundTrips.OctetOfHex | mqtt/cs7/ui_control.c:3243 | Two hexadecimal digits convert to the octet they were printed from |
| AddressRoundTrips.HexByteDigits | mqtt/cs7/stream_control.c:1430 | An octet is printed as two digits of the upper-case alphabet, the high one first |
| AddressRoundTrips.PiecesOfJoin | mqtt/cs7/ui_control.c:3177-3184 | Splitting undoes joining with dots |
| AddressRoundTrips.WordSurvivesPrintAndParse | mqtt/cs7/ui_control.c:3193-3204 | For every 32-bit word, `print_ip` then `extractIpAddress` then the packing gives the word back |
| AddressRoundTrips.DecOctetIsDecimal | mqtt/cs7/ui_control.c:3183 | Every dec-octet of section 3.2.2 of RFC 3986 is the canonical decimal of its value |
| AddressRoundTrips.PrintIsCanonical | mqtt/cs7/ui_control.c:3169-3204 | Any four fields of one to four digits, read and printed, come out as the decimals of their values modulo 256 |
| AddressRoundTrips.DottedQuadSurvivesParseAndPrint | mqtt/cs7/ui_control.c:3169-3204 | Every IPv4address of section 3.2.2 of RFC 3986 is printed back exactly as read |
| AddressRoundTrips.HexFieldsRead | mqtt/cs7/ui_control.c:3228-3252 | Six octets printed in hexadecimal with dots are read back by `extractMacAddress` |
| NumberReading.DigitsAreSpelled | mqtt/cs7/ui_control.c:3243 | The digits are exactly the characters of the two alphabets, of either case, below the base, each with its place in the alphabet as value |
| NumberReading.DigitsArePositional | mqtt/cs7/ui_control.c:3243 | Any row of digits in any mixture of cases has its positional value |
| NumberReading.FieldIsRead | mqtt/cs7/ui_control.c:3183-3243 | A field of blanks, a sign or none, in base 16 perhaps a 0x, digits and whatever does not go on with a digit is read as the signed positional value of its digits |
| NumberReading.FieldWithoutDigits | mqtt/cs7/ui_control.c:3183-3243 | A field without digits is read as 0 |
| NumberReading.HexFieldsMean | mqtt/cs7/ui_control.c:3228-3252 | Six dotted fields of one or two hexadecimal digits, of either case, are read by `extractMacAddress` as the octets they spell |
| NumberReading.LowerHexFieldsRead | mqtt/cs7/ui_control.c:3228-3252 | So an address printed in lower case is read back |
| AudioControl.FieldsAreAll | mqtt/cs7/stream_control.c:159-165 | The independent fields and the remaining bits determine the control word |
| AudioControl.FieldsDetermine | mqtt/cs7/stream_control.c:159-165 | Words with the same fields are the same |
| AudioControl.HelperIsRecordUpdate | mqtt/cs7/stream_control.c:240-279 | Each read-mask-write helper is the update of one field of the record and of nothing else |
| AudioControl.RunRefinesRecord | mqtt/cs7/stream_control.c:240-279 | Every run of helpers on the word is the same run of record updates |
| AudioControl.UpdateSound | mqtt/cs7/stream_control.c:240-279 | Each update makes the mode known only by setting it, clears the reset bits only by resetting, and keeps the other bits |
| AudioControl.RunKeepsWordSound | mqtt/cs7/stream_control.c:458-496 | From any word, after every run: the mode is within 0..4 if and only if it was or a mode was set, the reset bits are 0 if and only if they were or the FIFOs were reset, and bits 2-5 and 12-31 never change |
| AudioControl.KnownModeIsItsNumber | mqtt/cs7/stream_control.c:245-270 | Modes 0 to 4 go by their number, every other counts as 0 |
| AudioControl.BitsByNumber | mqtt/cs7/stream_control.c:158-496 | After every run by the numbers of the bits: 6, 7 and 8 are what the latest count, test and send helper said, 9-11 the latest mode, 0-1 clear once the FIFOs were reset, all others unchanged |
| Bytes.SplitRejoins | mqtt/cs7/stream_control.c:1227-1232 | Splitting a 64-bit limit into two registers and joining them gives it back |
| PacketTimeLimits.Enforcer.constructor | mqtt/cs7/stream_control.c:1042-1063 | The registers start with whatever they hold and no setting |
| PacketTimeLimits.Enforcer.Set | mqtt/cs7/stream_control.c:1227-1247 | A setter adds exactly its setting to the history that the registers stand for |
| PacketTimeLimits.Enforcer.Get | mqtt/cs7/stream_control.c:1042-1063 | A getter returns the last value in the history given to its limit, the difference limit modulo 2^32 |
| PacketTimeLimits.ReportedAfterSet | mqtt/cs7/stream_control.c:1299-1304 | No setter disturbs another limit's getter |
| PacketTimeLimits.GettersReportLatest | mqtt/cs7/stream_control.c:1042-1063 | After any interleaving of the four setters each getter reports the last value given to its own limit, the difference limit modulo 2^32 |
| PacketTimeLimits.RegistersByNumber | mqtt/cs7/stream_control.c:1227-1304 | After any interleaving registers 3-4, 21-22, 5-6 and 16-17 hold the low and high half of the latest value of their limit, and every other register what it held before |
| PacketTimeLimits.DiffLimitSurvivesIff32Bits | mqtt/cs7/stream_control.c:1262-1269 | The difference limit reads back as set if and only if it is below 2^32 |
| EthRegisters.ReadAfterWrite | mqtt/cs7/stream_control.c:1464-1518 | Reading with the matching identifier returns the last value written for it, and writes of other parameters leave it alone |
| EthRegisters.ReadAfterWrites | mqtt/cs7/stream_control.c:1364-1518 | After any run of `write_eth_param`, reading an address, the port or the control word with its matching identifier returns the last value written for it |
| EthRegisters.NumberingsAgreeIff | mqtt/cs7/include/reg_io.h:341-405 | The two enumerations number a parameter alike if and only if it is the MAC, the local or the destination IP |
| EthRegisters.WrongIdentifierReads | mqtt/cs7/ui_control.c:1675-1702 | `getgip` reads the mask, `getmask` the destination port and `getport` no register: each is right if and only if the two happen to be equal |
| EthRegisters.HexTextAt | mqtt/cs7/stream_control.c:1430 | Octet k of an address stands at digits 2k and 2k+1 of its text |
| EthRegisters.BytesOfPack3 | mqtt/cs7/stream_control.c:1411-1412 | Three octets are recovered from their packed register |
| CommandProofs.BytesOfClearedAddress | mqtt/cs7/stream_control.c:443 | Clearing the low bit of the first MAC register clears the low bit of the third octet only |
| EthRegisters.MacNumberRightIff | mqtt/cs7/stream_control.c:1434 | The number `read_eth_mac` returns is the 48-bit address if and only if the two leading octets are 0 |
| Commands.AfterDReset | mqtt/cs7/ui_control.c:546-563 | `dreset` clears the sync bit, sets it again and leaves every other Ethernet register alone |
| CommandProofs.EditBits | mqtt/cs7/ui_control.c:643-1036 | What each of the eight edits of the control word does to each bit and to bits 3-31 |
| CommandProofs.ExecEditsControlWord | mqtt/cs7/ui_control.c:643-1182 | Every command's effect on `ETH_CONTROL` is one of those edits |
| CommandProofs.ExecControl | mqtt/cs7/ui_control.c:643-1182 | Each command sets, clears or keeps each of the three bits as its effect table says and keeps bits 3-31 |
| CommandProofs.ControlFollowsLatest | mqtt/cs7/ui_control.c:543-1182 | Over every run of commands the transmit, receive and sync bit are each what the latest command with an effect on it said; bits 3-31 never change |
| CommandProofs.ControlByNumber | mqtt/cs7/ui_control.c:543-1182 | The same by number: bit 0 is the sync, bit 1 the transmit and bit 2 the receive bit |
| CommandProofs.SyncBitIsSticky | mqtt/cs7/ui_control.c:855-859 | The sync bit is set if and only if it was set before or a `setsyncen` or `dreset` has completed; nothing takes it back |
| CommandProofs.ExecSettings | mqtt/cs7/stream_control.c:1364-1400 | A register of a parameter changes only by a command storing to that parameter |
| CommandProofs.SettingsFollowLatest | mqtt/cs7/stream_control.c:1364-1400 | Over every run each register of a parameter holds the latest value stored to it |
| CommandProofs.RegistersByNumber | mqtt/cs7/stream_control.c:1364-1400 | By number, over every run: register 2 holds the latest `strlip`, 3 the latest `strgip`, 4 the latest `strmask`, 16 the latest `strsip` and 17 the latest `strsport`; 18 and 19 never change |
| CommandProofs.DestinationSlotsCoherent | mqtt/cs7/stream_control.c:1374-1387 | Once set, registers 5, 7, 9, 11, 13 all hold the latest destination IP and 6, 8, 10, 12, 14 the latest port |
| CommandProofs.ReadsLatest | mqtt/cs7/stream_control.c:1464-1518 | After every run, reading an address or port with its matching identifier returns the latest value stored |
| CommandProofs.WrongIdentifierReadsLatest | mqtt/cs7/ui_control.c:1675-1702 | After every run `getgip` reads the latest mask, `getmask` the latest destination port and `getport` no register, whatever was stored to gateway, mask and port |
| CommandProofs.AddressReadsBack | mqtt/cs7/ui_control.c:1644-1671 | From text to text: after any run in which `strlip` or `strdip` last got a dotted quad, `getlip` or `getdip` prints that quad |
| CommandProofs.ExecMac | mqtt/cs7/stream_control.c:408-447 | A command other than `strmac` leaves the MAC registers alone, or clears the low bit of the first if it synchronises |
| CommandProofs.MacRegisters | mqtt/cs7/stream_control.c:408-447 | Over every run without `strmac` the two MAC registers change by at most that bit, and exactly if there was sync traffic |
| CommandProofs.MacReadsBack | mqtt/cs7/stream_control.c:1408-1430 | `strmac`, then any further commands, then `read_eth_mac`: the twelve hex digits of the six octets read, with the third octet made even exactly if there was sync traffic |
| CommandProofs.HexTextTells | mqtt/cs7/stream_control.c:1430 | Different octets print differently |
| CommandProofs.MacReadsBackIff | mqtt/cs7/stream_control.c:1408-1447 | After `strmac` and any further commands, `read_eth_mac` prints the octets that were given if and only if none of them synchronised or the third octet is even |
| CommandProofs.MacSurvivesIffEven | mqtt/cs7/stream_control.c:437-443 | Making the third octet even changes the address if and only if it was odd |
| CommandProofs.ExecAudio | mqtt/cs7/ui_control.c:537-1005 | A command runs at most one helper on the audio-to-Ethernet control word |
| CommandProofs.AudioWordFollowsRecord | mqtt/cs7/ui_control.c:537-1005 | Over every run of commands that word is what the record updates the commands stand for make of it |
| PeripheralProofs.ExecDac | mqtt/cs7/stream_control.c:168-174 | One command ends with bits 0-1 of the DAC control word clear if it resets the DAC FIFOs, and otherwise leaves every register of that core alone |
| PeripheralProofs.DacFollowsResets | mqtt/cs7/stream_control.c:168-174 | Over every run of commands the two reset bits are clear if and only if they were or one of `dreset`, `freset`, `rxrsync`, `strselarm`, `strseleth` has completed; the other bits and registers never change |
| PeripheralProofs.ExecSync | mqtt/cs7/stream_control.c:342-432 | What each command leaves in register 0 and in the delay register of the time-sync core; the others are kept |
| PeripheralProofs.SyncWordBits | mqtt/cs7/stream_control.c:342-432 | What that is bit by bit |
| PeripheralProofs.SyncFollowsLatest | mqtt/cs7/stream_control.c:342-432 | Over every run bit 0 is what the latest of `setsyncen`, `dreset`, `setsyncoff` and `setsyncon` said, bit 1 is clear from the first of these or of `setsyncrst` on, and register 5 is the latest delay; no other register changes |
| PeripheralProofs.ExecRequest | mqtt/cs7/stream_control.c:335-447 | Which commands store to the sync request register, and that no other register but the control word changes |
| PeripheralProofs.RequestFollowsLatest | mqtt/cs7/stream_control.c:335-447 | Over every run the request is 1 after `setsyncon` and `tgsync` and 0 after `strstop`, whichever came last |
| Board.Board.WriteEthParam | mqtt/cs7/stream_control.c:1364-1405 | Stores to every register of the parameter and to no other |
| Board.Board.WriteEthMac | mqtt/cs7/stream_control.c:1408-1417 | Stores the six octets to the two MAC registers and nothing else |
| Board.Board.ReadEthMac | mqtt/cs7/stream_control.c:1421-1436 | Twelve digits, two for each octet of the two MAC registers in order, and the 48-bit address modulo 2^32 |
| Board.Board.HelperWord | mqtt/cs7/stream_control.c:240-491 | Each helper's own mask updates the helper's field of the record and no other |
| Board.Board.TestModeWord | mqtt/cs7/stream_control.c:245-269 | The mode field becomes the number of a known mode, 0 for an unknown one, and all other fields stay |
| Board.Board.RunHelper | mqtt/cs7/stream_control.c:240-491 | One field of the control word is updated and every other field and register kept |
| Board.Board.ResetDacFifos | mqtt/cs7/stream_control.c:168-174 | Raises and clears the two reset bits; all other registers stay |
| Board.Board.SetSyncRst | mqtt/cs7/stream_control.c:357-362 | Raises and clears the reset bit of the sync core; all other registers stay |
| Board.Board.WriteSync | mqtt/cs7/stream_control.c:342-391 | Stores to one register of the sync core |
| Board.Board.SetSyncOff | mqtt/cs7/stream_control.c:437-443 | Clears the request and the low bit of the first MAC register |
| Board.Board.InitiateSync | mqtt/cs7/stream_control.c:408-427 | Sets and clears the low bit of the first MAC register around the sync pulse |
| Board.Board.ResetCore | mqtt/cs7/ui_control.c:643-647 | Pulses the core reset bit; it ends cleared whatever it was |
| Board.Board.DReset | mqtt/cs7/ui_control.c:546-557 | The nine register accesses of `dreset` leave what `AfterDReset` says |
| Board.Board.StrNsp | mqtt/cs7/ui_control.c:1171-1182 | Speeds 0, 1 and 2 clear both, the receive and the transmit bit; other numbers do nothing |
| Board.Board.StrStop | mqtt/cs7/ui_control.c:1018-1022 | The control word is written from the value read before `set_sync_off` |
| Board.Board.StrMac | mqtt/cs7/ui_control.c:1037-1043 | The octets read from the text reach the two MAC registers |
| Board.Board.SetIp | mqtt/cs7/ui_control.c:1068-1073 | The octets read from the text reach the parameter's registers, packed |
| Board.Board.Execute | mqtt/cs7/ui_control.c:293-1190 | Every command leaves the register banks exactly as `Exec` specifies |
| Board.Board.ExecuteAll | mqtt/cs7/ui_control.c:292-1190 | Every script of commands leaves them as `Run` specifies |
| CodecWords.ControlWordDecodes | mqtt/cs7/adau1761_controller.c:25 | A 16-bit address, a length of 1..8 and the direction are each recovered from their control word, which neither starts nor resets |
| CodecWords.ControlWordByNumber | mqtt/cs7/adau1761_controller.c:25-31 | By number: address in bits 0-15, length less one in 16-18, direction in 19, nothing above; START adds bit 24 alone |
| CodecWords.StartLeavesFields | mqtt/cs7/adau1761_controller.c:31 | The START bit disturbs no other field |
| CodecWords.TruncatedIsRemainder | mqtt/cs7/adau1761_controller.c:47 | The mask keeps the remainder modulo 2^(8n) |
| CodecWords.PayloadIsTopAligned | mqtt/cs7/adau1761_controller.c:26-27 | The payload words carry the low bytes of the data at the top and zeros below |
| CodecWords.PayloadKeepsData | mqtt/cs7/adau1761_controller.c:26-27 | Through the shift and the split into two words a device that takes the top n bytes gets the data modulo 2^(8n) |
| CodecWords.AnswerUnmasks | mqtt/cs7/adau1761_controller.c:45-47 | Joining and masking the two answer words drops whatever lies above the n bytes |
| CodecDevice.StartBegins | mqtt/cs7/adau1761_controller.c:30-31 | The control word followed by the same word with START begins exactly one transaction, whatever the register held before |
| CodecDevice.WriteCompletes | mqtt/cs7/adau1761_controller.c:22-34 | A completed write leaves the data modulo 2^(8n) at its address and nothing else changed |
| CodecDevice.ReadCompletes | mqtt/cs7/adau1761_controller.c:36-44 | A completed read leaves the answer in the two read registers and no codec register changed |
| CodecDevice.ReadAnswers | mqtt/cs7/adau1761_controller.c:45-47 | Those two registers, joined and masked, are what the codec showed, modulo 2^(8n) |
| CodecTrace.SafePolls | mqtt/cs7/adau1761_controller.c:32-33 | Any number of polls followed by one that finds the device idle is safe and puts the bus at rest: nothing awaited, no RESET left raised |
| CodecTrace.SafeStart | mqtt/cs7/adau1761_controller.c:30-33 | Control word, START and polling are safe from a bus at rest and leave it at rest |
| CodecTrace.SafeCall | mqtt/cs7/adau1761_controller.c:22-54 | Every call is safe after every safe history and leaves the bus at rest, however long the device stays busy |
| CodecTrace.DrivenSafely | mqtt/cs7/adau1761_controller.c:22-60 | For every sequence of calls and all busy times: nothing is stored while a transaction is in progress, START directly follows the same word without it, a writing START follows its two data words, and a RESET is followed at once by a store of 0 |
| CodecTrace.CodecHoldsLastWrite | mqtt/cs7/adau1761_controller.c:22-34 | After any calls the codec holds, at each address, the data last written there since the last reset, modulo 2^(8n) |
| CodecTrace.CodecShowsLastWrite | mqtt/cs7/adau1761_controller.c:36-48 | And shows it to a read, except at the PLL register |
| CodecStartup.StartupIsGated | mqtt/cs7/adau1761_controller.c:64-72 | However long the PLL takes, the core clock is enabled only after a read that saw it locked, with no reconfiguration in between, and no earlier read saw it locked |
| CodecStartup.StartupSettles | mqtt/cs7/adau1761_controller.c:62-150 | After the start-up every setting stands at its address and the core clock is on; no later write undoes an earlier one |
| CodecStartup.WrittenHolds | mqtt/cs7/adau1761_controller.c:77-149 | A list of settings at distinct addresses leaves each of them in place |
| CodecStartup.ReadsConfigured | mqtt/cs7/adau1761_controller.c:70-71 | A read of the configured PLL register gives the configured value with the lock bit |
| Codec.Driver.TraceIsSafe | mqtt/cs7/adau1761_controller.c:22-60 | In every reachable state the whole bus trace is safe, nothing is awaited and no RESET is left raised |
| Codec.Driver.StoreWord | mqtt/cs7/include/adau1761_controller.h:84-85 | A bus store acts on the device as it is one cycle later |
| Codec.Driver.FetchWord | mqtt/cs7/include/adau1761_controller.h:103-104 | A bus load returns the register of the device one cycle later |
| Codec.Driver.WaitWhileBusy | mqtt/cs7/adau1761_controller.c:32-33 | The polling loop terminates for every busy time with the transaction completed and the device idle |
| Codec.Driver.Start | mqtt/cs7/adau1761_controller.c:30-31 | The two control stores begin the transaction |
| Codec.Driver.WriteAdau | mqtt/cs7/adau1761_controller.c:22-34 | The device ends idle with the data modulo 2^(8n) at the address; the call is recorded and the invariant kept |
| Codec.Driver.ReadAdau | mqtt/cs7/adau1761_controller.c:36-48 | Returns what the codec shows modulo 2^(8n); by the invariant, the data last written there since a reset |
| Codec.Driver.PulseReset | mqtt/cs7/adau1761_controller.c:53-54 | The reset pulse ends with the control register at 0; the invariant, by which the reset bit is clear between calls, stands |
| Codec.Driver.ResetAdau | mqtt/cs7/adau1761_controller.c:50-60 | A reset pulse followed by exactly three reads of one byte at address 0 |
| Codec.Driver.PollPll | mqtt/cs7/adau1761_controller.c:70-71 | One look at the PLL register, locked or not |
| Codec.Driver.WaitForLock | mqtt/cs7/adau1761_controller.c:70-71 | The loop terminates after as many unlocked looks as the PLL needs, with one locked look |
| Codec.Driver.InitAdau | mqtt/cs7/adau1761_controller.c:62-150 | The calls made are exactly the start-up sequence for this PLL |
| MixerProofs.GainsFollowLatest | mqtt/cs7/ui_control.c:294-365 | Over every run global and channel gains are the latest commanded, and the gain last requested of a channel is their product modulo 2^32 once either was commanded |
| MixerProofs.GainsByNumber | mqtt/cs7/ui_control.c:294-365 | By number: settings 0 to 3 show the latest loopback right and left, network right and left gain |
| MixerProofs.SignedIsCongruent | mqtt/cs7/ui_control.c:294-365 | A gain is shown as the signed 32-bit number with the same bits |
| MixerProofs.CoherentIffCommanded | mqtt/cs7/ui_control.c:294-365 | Requested gain = global times channel gain if and only if `vgg` or that channel's command has run; initialisation leaves 30 against 4 times 30 |
| MixerProofs.ShownIffCommanded | mqtt/cs7/ui_control.c:319-359 | The settings array shows a channel's gain if and only if that channel's command has run |
| MixerProofs.TypeWritesItsBand | mqtt/cs7/filter_control.c:63-73 | Setting one band writes that band's enable register and neither of the other two |
| MixerProofs.CoefficientsSpareEnables | mqtt/cs7/filter_control.c:25-44 | Loading coefficients leaves the three enable registers alone |
| MixerProofs.FiltersFollowLatest | mqtt/cs7/ui_control.c:366-470 | Over every run with coefficient loads in between, a filter's flag, setting and enable register are the latest command's |
| MixerProofs.FiltersByNumber | mqtt/cs7/ui_control.c:366-470 | By number: registers 17, 18 and 19 of each device are the high, band and low pass, settings 4 to 9 the low, band and high pass of loopback and network |
| MixerProofs.CoefficientsFollowLatest | mqtt/cs7/filter_control.c:25-45 | Over every run register i of a filter holds coefficient i of the latest load, the strobe is 0 and register 16 is 1 once anything was loaded; filter commands disturb none of them |
| MixerProofs.FlagIsRegisterIff | mqtt/cs7/ui_control.c:366-470 | Flag and enable register agree if and only if the filter was commanded or its register started at 0 |
| MixerProofs.LedsAreThermometer | mqtt/cs7/ui_control.c:2726-2766 | The eight threshold tests light exactly the lowest min(8, max(0, globalVol / 2)) LEDs |
| MixerProofs.LedsFollowGlobal | mqtt/cs7/ui_control.c:294-313 | Over every run the LEDs are that thermometer of the latest global gain, and untouched before the first |
| MixerProofs.LedsShowGlobalIff | mqtt/cs7/ui_control.c:2726-2766 | The LEDs show the global volume if and only if a global gain was commanded or they happened to show 2, which is what 4 stands for |
| MixerProofs.ExitSilences | mqtt/cs7/ui_control.c:2212-2221 | Once `exit` is given the volume shown and every channel's request are 0 and no LED is lit |
| Mixer.TypeBits | mqtt/cs7/filter_control.c:63-71 | The band bits of an accepted type: 1, 2 and 4 are one band each, 3 is band and high pass |
| Mixer.SetFilterType | mqtt/cs7/filter_control.c:54-76 | Writes the enable register of every band in the type; refuses, writing nothing, exactly the types outside 1 to 4 |
| Mixer.SetCoefficients | mqtt/cs7/filter_control.c:25-45 | The loop leaves the fifteen coefficients in order, the strobe at 0 and register 16 at 1 |
| Mixer.Mixer.constructor | mqtt/cs7/ui_control.c:2549-2562 | The state initialisation leaves |
| Mixer.Mixer.UpdateLeds | mqtt/cs7/ui_control.c:2726-2766 | The LEDs show the global volume |
| Mixer.Mixer.SetGlobal | mqtt/cs7/ui_control.c:294-313 | `vgg` leaves the desk exactly as specified |
| Mixer.Mixer.SetGain | mqtt/cs7/ui_control.c:313-365 | The four channel commands leave it exactly as specified |
| Mixer.Mixer.SetFilter | mqtt/cs7/ui_control.c:366-470 | The twelve filter commands leave it exactly as specified |
| Mixer.Mixer.LoadCoefficients | mqtt/cs7/ui_control.c:2538-2546 | A coefficient load leaves it exactly as specified |
| Mixer.Mixer.Quit | mqtt/cs7/ui_control.c:2212-2221 | `exit` leaves it exactly as specified |
| Mixer.Mixer.Execute | mqtt/cs7/ui_control.c:294-470 | Every command leaves the desk as `Exec` specifies |
| Mixer.Mixer.ExecuteAll | mqtt/cs7/ui_control.c:292-470 | Every script leaves it as `Run` specifies |
| Store.AssocInSucceedsIff | platform/src/platform/db/store.clj:12 | A write of a path succeeds if and only if no scalar stands above its last key, and then leaves a map |
| Store.GetAtOrBelow | platform/src/platform/db/store.clj:8-12 | What was written is read at its path and below it |
| Store.GetAbove | platform/src/platform/db/store.clj:8-12 | Above the path the map has been written in the same way |
| Store.GetElsewhere | platform/src/platform/db/store.clj:8-12 | At every diverging path nothing changed |
| Store.PathsCompare | platform/src/platform/db/store.clj:8-12 | These cases are all: two paths diverge or one leads to the other |
| Store.UpdateIsWriteOfRead | platform/src/platform/db/store.clj:13 | The three-argument write is writing what the function makes of the value read |
| Store.EmptyPathWritesNilKey | platform/src/platform/db/store.clj:12 | An empty path writes under the nil key instead of replacing the store |
| Store.ReadBackIff | platform/src/platform/db/store.clj:8-12 | A write that succeeds is read back at its own path if and only if the path is not empty |
| Store.Atom.constructor | platform/src/platform/db/store.clj:5-6 | The store starts with two empty maps, under `:teleporter` and `:jam` |
| Store.Atom.Rd | platform/src/platform/db/store.clj:8-9 | Reads the state that the history of writes leaves |
| Store.Atom.Wr | platform/src/platform/db/store.clj:12 | Writes or, when the operation throws, leaves the state as it was |
| Store.Atom.WrWith | platform/src/platform/db/store.clj:13 | Likewise with a function; nothing is written when the function throws |
| TpStatus.HeartbeatsOfOthersDiverge | platform/src/platform/tpstatus.clj:7-10 | Heartbeats of different teleporters are written to diverging paths |
| TpStatus.OnlineReadsStamp | platform/src/platform/tpstatus.clj:12-18 | Online if and only if the number at `[:teleporter id :teleporter/heartbeat-timestamp]` is less than the timeout ago; anything else there that is not missing throws |
| TpStatus.WriteElsewhere | platform/src/platform/tpstatus.clj:7-15 | A write at a diverging path keeps a teleporter's timestamp and the maps above it |
| TpStatus.HeartbeatLands | platform/src/platform/tpstatus.clj:7-10 | A heartbeat always succeeds and is then the timestamp read |
| TpStatus.StoreHoldsLatest | platform/src/platform/tpstatus.clj:7-15 | Whatever else is written elsewhere, the store holds the teleporter's latest heartbeat |
| TpStatus.OnlineIffLatest | platform/src/platform/tpstatus.clj:12-18 | Online if and only if there is a latest heartbeat and it is within the timeout; the question never throws |
| TpStatus.OnlineIffRecentHeartbeat | platform/src/platform/tpstatus.clj:12-18 | For every history at non-decreasing times, with heartbeats of any teleporters and other writes in between: online if and only if some past heartbeat of its own is within the timeout |
| TpStatus.FaithfulIffLatestIsNewest | platform/src/platform/tpstatus.clj:12-18 | For every history, at any times: the answers at all times are that some own past heartbeat is within the timeout if and only if no own heartbeat is newer than the one written last |
| TpStatus.AdvancingClockIsNewest | platform/src/platform/tpstatus.clj:7-10 | Non-decreasing times meet that condition |
| TpStatus.ClockStepHidesHeartbeat | platform/src/platform/tpstatus.clj:12-18 | With a clock set back that fails: a concrete history in which a heartbeat within the timeout is hidden by a later write |
| TpStatus.HandleTeleporterHeartbeat | platform/src/platform/tpstatus.clj:7-10 | Adds exactly the write of that time at `[:teleporter id :teleporter/heartbeat-timestamp]` |
| TpStatus.TeleporterOnline | platform/src/platform/tpstatus.clj:12-18 | Answers from the store what the history says |

Further specification functions and lemmas without a row are steps of these proofs.

## Left out

- ChannelProofs.ChannelIntegrity: stated for both channels in runs without an empty-FIFO report, since a left-empty report plays a stale left sample again and a right-empty one moves samples to the other channel; `ChannelProofs.RightIntegrity` is the half that survives left-empty reports. Both are about a network that loses but does not reorder or duplicate, since nothing in the program numbers packets; for one that does, the two `NothingCrossesOver` lemmas keep what does not depend on order. Datagrams from elsewhere are in none of them.
- PipelineProofs.RunKeepsBounds: a pass of the fill loop that would store past its array is not a step of the state machine, because nothing defined follows it; `CaptureFill.OverrunIffLastSlotMetByRight` says exactly when there is one and `Streamer.CapturePass` reports it.
- ChannelProofs.LosslessIsAWire: stated under the same two conditions, with `ChannelProofs.RightIsAWire` for left-empty reports.
- Codec.Driver.ReadAdau: lengths 1 to 7; for eight bytes the source shifts by the full width of the type, which C leaves undefined. Writes are modelled for 1 to 8 bytes.
- AddressText.Extract: texts of at most 255 characters, at most four (six) fields and four characters a field; the source gives no meaning to longer ones.
- TpStatus.OnlineIffRecentHeartbeat: other writes must not touch the path of the teleporter's timestamp, its parents or its children.
- Opening and mapping devices, sockets and queues, GPIO export, sleeps and threads' start: foreign calls. A call that can fail is a step that may fail; a device base that was never mapped is not modelled, so `write_stream` and the register helpers do not return -1.
- Everything printed, drawn or shown as status text, the `get` commands that only print a register, and the commented-out functions.
- `set_volume`: its body returns 0 and does nothing. The gain it was last asked for is recorded instead.
- The program's counters are unbounded; their wrap-around after 2^64 increments is not modelled.
- A step of a thread is one pass of a loop or one call; interleavings inside a pass are not, as the threads share only the queues and each counter has one writer.
- Commands that do the same are one step each: five address commands, two port commands, the eleven commands on the audio-to-Ethernet control word, the two stream selections, the five gain and twelve filter commands. Reading the command word and its argument from the terminal is not modelled.
- The commands on the packet sequencer, on header stripping, buffer correction, test patterns of the playing side, lengths and the packet-time enforcer's other registers: they store to registers that no property here is about. Only the helpers that write the control words, the addresses, the MAC and the sync registers are modelled.
- The second branches for `setsyncoff` and `strsip`: the first branch with the same name is always taken.
- Registers 7 to 14 of the Ethernet core are destination slots when written and timers and counters when read: two banks.
- The signed address arrays of `ui_init`: the unsigned ones of the command loop are modelled.
- The codec's reset and power-up: a reset pulse may make anything of its registers. Its registers hold up to eight bytes at one address; overlapping multi-byte registers are not modelled. The start-up's straight list of writes is a table walked in order, and its one-second pause is left out.
- Values in the store other than maps, numbers and nothing; keys other than names. The jam lifecycle and the database handed to the HTTP handlers are implemented in a library that is not part of this model, and so are routes, middleware, configuration, scheduler and version refresher.
