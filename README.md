# DW1000 RTLS two-way ranging, modelled in Dafny

This project models the RTLS layer of the DW1000Jang Arduino library
(`src/DW1000JangRTLS.cpp` and `src/DW1000JangRTLS.hpp`). That layer runs the
ISO/IEC 24730-62:2013 two-way-ranging message set between a **tag** and
**anchors** over a DW1000 UWB radio.

- The **tag** blinks and takes the short address a Ranging Initiation offers.
  It then sends a Poll, waits for the Response-to-Poll, and answers with a Final
  that embeds three timestamps. It reads the anchor's verdict: a Ranging Confirm
  naming the next anchor (and, in the `_v2` and distance variants, the measured
  distance), or an Activity Finished carrying a new blink rate.
- An **anchor** waits for the Poll, answers it and waits for the Final. It
  computes the asymmetric two-way range from the six timestamps and sends its
  verdict.

The model has six modules, one per concern of the source:

| file | module | what it holds |
|---|---|---|
| `bytes.dfy` | `Bytes` | bytes, `uint16`, the little-endian `writeValueToBytes` / `bytesAsValue`, and `uint32_t` / `uint64_t` wrap-around |
| `protocol.dfy` | `Protocol` | the header constants, `NextActivity`, and the result structs; `Value<T>` marks a C result left unassigned |
| `frames.dfy` | `Frames` | each frame initializer as a byte-sequence function; the readers' checks as predicates; `calculateNewBlinkRate`; layout and decoding lemmas |
| `radio.dfy` | `Driver` | a scripted DW1000 radio as a class (see below) |
| `sessions.dfy` | `Sessions` | each ranging routine's outcome as a function of the script of received frames, with the lemmas relating them |
| `rtls.dfy` | `Rtls` | class `Node`, the RTLS namespace, where every source routine is a method proved against the `Sessions` functions |

The radio (`Driver.Radio`) logs each transmitted frame with its immediate or
delayed mode. It delivers a scripted sequence of reception events, each a
frame with its rx timestamp or a timeout. Its tx timestamps are a second
script. `SEQ_NUMBER` is the field `Node.seqNumber`, a byte that wraps at 256.

Parameters stand for code outside this model: `microsecondsToUWBTime`,
`LENGTH_TIMESTAMP`, `computeRangeAsymmetric` followed by `correctRange`, and
the double-to-`uint16_t` millimetre cast. The tx antenna delay and the system
clock are constants of the radio.

Where the code leaves a result unassigned, the model returns `Indeterminate`
rather than inventing a value. This happens in the tags' "activity control
but neither Confirm nor Finished" branch, the anchors' malformed Poll or Final
branches, and the infrastructure run's final "TODO" branch (`src/DW1000JangRTLS.cpp:614-616`).
The code assigns nothing on these paths, and the model follows the code.

## Model

| member | source | states |
|---|---|---|
| Bytes.ValueRoundTrip | src/DW1000JangRTLS.cpp:486-487 | reading back the n bytes written for a value gives the value modulo 256^n |
| Bytes.Uint16RoundTrip | src/DW1000JangRTLS.cpp:526 | a 16-bit address written into two bytes reads back unchanged |
| Bytes.BytesRoundTrip | src/DW1000JangRTLS.cpp:452 | writing back the value read from bytes reproduces those bytes |
| Bytes.ToUint32 | src/DW1000JangRTLS.cpp:143-145 | the uint32_t cast is below 2^32 and is the identity on values that fit |
| Bytes.CastKeepsFourBytes | src/DW1000JangRTLS.cpp:143-145 | the uint32_t cast before a four-byte write changes none of the bytes written |
| Bytes.AddUint64 | src/DW1000JangRTLS.cpp:129-133 | uint64_t addition is below 2^64 and exact when no overflow occurs |
| Protocol.AppIdBytes | src/DW1000JangRTLS.hpp:38-40 | RTLS_APP_ID is 0x609A, with low byte 0x9A and high byte 0x60 |
| Protocol.BlinkHeaderValue | src/DW1000JangRTLS.hpp:57-65 | NO_BATTERY_STATUS \| NO_EX_ID is 0x43 |
| Protocol.FrameControlDistinct | src/DW1000JangRTLS.hpp:30-31 | a Blink's first byte is never a data frame's |
| Protocol.FunctionCodesDistinct | src/DW1000JangRTLS.hpp:43-49 | the seven function codes are pairwise distinct |
| Protocol.ActivityCodesDistinct | src/DW1000JangRTLS.hpp:52-54 | the three activity codes are pairwise distinct |
| Protocol.BlinkRateMasks | src/DW1000JangRTLS.cpp:319-320 | masking with 0x3F and shifting 0xC0 by 6 split a byte into value mod 64 and value div 64 |
| Frames.BlinkFrame | src/DW1000JangRTLS.cpp:42-43 | the Blink initializer with the EUI at 2..9; its layout is stated by Frames.BlinkLayout |
| Frames.RangingInitiationFrame | src/DW1000JangRTLS.cpp:49-53 | the Ranging Initiation initializer with its copies; read back by Frames.RangingInitiationAccepted |
| Frames.PollFrame | src/DW1000JangRTLS.cpp:59-65 | the 24-byte Poll initializer with its copies; layout in Frames.DataFrameLayouts |
| Frames.ResponseToPollFrame | src/DW1000JangRTLS.cpp:71-76 | the 13-byte Response initializer with its copies; layout in Frames.DataFrameLayouts |
| Frames.DelayedResponseToPollFrame | src/DW1000JangRTLS.cpp:91-97 | the 24-byte Response of the delayed variants; layout in Frames.DataFrameLayouts |
| Frames.FinalFrame | src/DW1000JangRTLS.cpp:135-145 | the 22-byte Final with three 4-byte timestamps; read back by Frames.FinalTimestampsDecode |
| Frames.FinalWithPhaseFrame | src/DW1000JangRTLS.cpp:161-172 | the 26-byte Final with the phase at 22..25; layout in Frames.DataFrameLayouts |
| Frames.PostFinalFrame | src/DW1000JangRTLS.cpp:215-221 | the 24-byte Post-Final initializer; layout in Frames.DataFrameLayouts |
| Frames.RangingConfirmFrame | src/DW1000JangRTLS.cpp:249-254 | the 13-byte Confirm naming the next anchor; read back by Frames.ActivityPayloadsDecode |
| Frames.RangingConfirmDistanceFrame | src/DW1000JangRTLS.cpp:260-264 | the 15-byte Confirm with the distance at 13..14; read back by Frames.DistanceConfirmAccepted |
| Frames.RangingConfirmNextDistanceFrame | src/DW1000JangRTLS.cpp:270-274 | the 15-byte Confirm with next anchor and distance; read back by Frames.ConfirmNextDistanceDecodes |
| Frames.RangingConfirmPaddedFrame | src/DW1000JangRTLS.cpp:287-291 | the 17-byte initializer of transmitRangingConfirm_v3 as written; rejected by Frames.PaddedConfirmRejected |
| Frames.ActivityFinishedFrame | src/DW1000JangRTLS.cpp:299-302 | the 15-byte Finished with the blink rate at 11..12; read back by Frames.ActivityPayloadsDecode |
| Frames.ActivityFinishedDistanceFrame | src/DW1000JangRTLS.cpp:309-313 | the Finished with blink rate and distance; read back by Frames.DistancePayloadsDecode |
| Frames.IsRangingInitiation | src/DW1000JangRTLS.cpp:448 | the tag's Ranging Initiation check; Frames.ReadersTellFramesApart relates it to every frame |
| Frames.IsPoll | src/DW1000JangRTLS.cpp:469 | the anchor's Poll check; Frames.ReadersTellFramesApart relates it to every frame |
| Frames.IsResponseToPoll | src/DW1000JangRTLS.cpp:537 | the tag's Response check; Frames.ReadersTellFramesApart relates it to every frame |
| Frames.IsFinal | src/DW1000JangRTLS.cpp:483 | the anchor's Final check; Frames.ReadersTellFramesApart relates it to every frame |
| Frames.IsActivityControl | src/DW1000JangRTLS.cpp:554 | the tag's activity-control check on byte 9 |
| Frames.IsRangingConfirm | src/DW1000JangRTLS.cpp:555 | the tag's Confirm check on byte 10 |
| Frames.IsActivityFinished | src/DW1000JangRTLS.cpp:558 | the tag's Finished check on byte 10 |
| Frames.Field | src/DW1000JangRTLS.cpp:497-504 | a bytesAsValue read of a frame is defined exactly when it stays inside the frame, and fits its width |
| Frames.CalculateNewBlinkRate | src/DW1000JangRTLS.cpp:318-328 | the decoded blink rate never exceeds 16383 * 1000 |
| Frames.BlinkRateDecodes | src/DW1000JangRTLS.cpp:318-328 | the rate equals a 14-bit base times 1, 25, 1000 or 1 chosen by the 2-bit multiplier of the two-byte field at 11 |
| Frames.BlinkRateExamples | src/DW1000JangRTLS.cpp:318-328 | concrete encodings for each multiplier; with no multiplier bits the rate is the plain little-endian value |
| Frames.DataFrameLayouts | src/DW1000JangRTLS.cpp:58-316 | every data frame starts DATA, SHORT_SRC_AND_DEST, sequence, net id, destination, source, and has the length its initializer gives |
| Frames.HeaderDecodes | src/DW1000JangRTLS.cpp:63-65 | the net id, destination and source a frame was built with read back from offsets 3, 5 and 7 |
| Frames.BlinkLayout | src/DW1000JangRTLS.cpp:41-46 | a Blink is 12 bytes: BLINK, sequence, EUI, header 0x43 |
| Frames.RangingInitiationAccepted | src/DW1000JangRTLS.cpp:48-56 | every Ranging Initiation passes the tag's check at 448 and yields the offered short address and the sender's address |
| Frames.ReadersTellFramesApart | src/DW1000JangRTLS.cpp:469 | each reader's check accepts the frame meant for it and rejects the Poll, Response, Final, Confirm and Finished frames meant for others |
| Frames.ActivityPayloadsDecode | src/DW1000JangRTLS.cpp:486-493 | the anchor's two-byte value reads back as the Confirm's next anchor or decodes as the Finished blink rate |
| Frames.DistancePayloadsDecode | src/DW1000JangRTLS.cpp:259-316 | the millimetre distance at 13..14 of the distance frames reads back modulo 2^16 |
| Frames.ConfirmNextDistanceDecodes | src/DW1000JangRTLS.cpp:269-277 | a transmitRangingConfirm_v2 frame passes the tag's checks, and its next anchor and distance read back |
| Frames.FinalTimestampsDecode | src/DW1000JangRTLS.cpp:125-148 | a Final's three 32-bit-truncated timestamps read back exactly as 4-byte fields |
| Frames.FinalWideReadOverlaps | src/DW1000JangRTLS.cpp:497-504 | wider than 4 bytes, a timestamp read takes in bytes of the next field, and the last read overruns the frame |
| Frames.PaddedConfirmRejected | src/DW1000JangRTLS.cpp:279-294 | as written, the transmitRangingConfirm_v3 frame fails the tag's ACTIVITY_CONTROL check, with the codes at 11 and 12 |
| Frames.DistanceConfirmAccepted | src/DW1000JangRTLS.cpp:259-267 | the unpadded distance Confirm passes the tag's checks and its distance reads back |
| Driver.Radio.StartReceive | src/DW1000JangRTLS.cpp:339-352 | a reception reports true and latches the frame and timestamp exactly when the next event is a frame |
| Driver.Radio.CompleteTransmit | src/DW1000JangRTLS.cpp:330-337 | a completed transmission moves the tx timestamp to the next scripted one |
| Sessions.NextSequence | src/DW1000JangRTLS.cpp:37-39 | the next sequence number is the byte after the current one, modulo 256 |
| Sessions.SequenceAfterWraps | src/DW1000JangRTLS.cpp:32 | n frames later the sequence number has advanced by n modulo 256 |
| Sessions.RangeRequest | src/DW1000JangRTLS.cpp:439-454 | a range request succeeds exactly when a Ranging Initiation arrives; otherwise it is {false, 0} |
| Sessions.AssignedAddress | src/DW1000JangRTLS.cpp:452 | the device address changes only when a Ranging Initiation arrives |
| Sessions.InitiationRoundTrip | src/DW1000JangRTLS.cpp:48-56 | a tag receiving any Ranging Initiation reports the sending anchor and takes the offered address |
| Sessions.ActivityVerdict | src/DW1000JangRTLS.cpp:554-564 | the tag reports a definite failure exactly when byte 9 is not ACTIVITY_CONTROL |
| Sessions.FinishRange | src/DW1000JangRTLS.cpp:521-571 | an exchange succeeds only if a Response and then an activity frame arrived |
| Sessions.FinishRangeRest | src/DW1000JangRTLS.cpp:529-552 | an exchange consumes two events once the Response is accepted, otherwise one |
| Sessions.ActivityVerdictV2 | src/DW1000JangRTLS.cpp:737-745 | the _v2 tag reports a definite failure exactly when byte 9 is not ACTIVITY_CONTROL |
| Sessions.FinishRangeV2 | src/DW1000JangRTLS.cpp:704-753 | a _v2 exchange succeeds only if a Response and then an activity frame arrived |
| Sessions.FinishRangeV2Extends | src/DW1000JangRTLS.cpp:704-753 | tagFinishRange_v2 agrees with tagFinishRange on every field they share, on every script |
| Sessions.FinishRangeSucceedsIff | src/DW1000JangRTLS.cpp:554-564 | success holds exactly when the activity frame is a Confirm or Finished; the result is undetermined exactly for other activity codes |
| Sessions.ConfirmDrivesTag | src/DW1000JangRTLS.cpp:555-556 | an anchor's Confirm yields success, next and the next anchor it named |
| Sessions.FinishedDrivesTag | src/DW1000JangRTLS.cpp:558-559 | an anchor's Finished yields success, not next, and the decoded blink rate |
| Sessions.Infrastructure | src/DW1000JangRTLS.cpp:573-620 | the loop's result on a script: hops chain while each succeeds with next; its properties are the lemmas below |
| Sessions.LastHop | src/DW1000JangRTLS.cpp:587-594 | following accepted Confirms ends at a hop that is not a successful Confirm |
| Sessions.InfrastructureReportsLastFinished | src/DW1000JangRTLS.cpp:601-618 | on every script, a last-hop Finished gives success with its CalculateNewBlinkRate cast to uint16_t, or an undetermined result when that rate is 0; no other run succeeds |
| Sessions.PolledAnchors | src/DW1000JangRTLS.cpp:577-594 | the anchors the run polls: the target first, then each accepted Confirm's next_anchor |
| Sessions.InfrastructureNeedsFinished | src/DW1000JangRTLS.cpp:573-620 | a successful infrastructure run ended on an Activity Finished |
| Sessions.InfrastructureFailsWithFirstHop | src/DW1000JangRTLS.cpp:580-584 | with no Response to the first Poll the run fails with {false, 0} |
| Sessions.InfrastructureSkipsConfirm | src/DW1000JangRTLS.cpp:587-594 | after a Confirm the run continues as a fresh run on the remaining script |
| Sessions.ThreeAnchorInfrastructure | src/DW1000JangRTLS.cpp:573-620 | Confirm, Confirm, Finished from three anchors gives success with the truncated rate, or an undetermined result at rate 0 |
| Sessions.TruncatedRate | src/DW1000JangRTLS.cpp:606 | a decoded rate of 8192000 truncates to 0 yet still reports success |
| Sessions.LaterHopsV2 | src/DW1000JangRTLS.cpp:798-885 | the _v2 hops after the first: next_anchor 3 sets b_dist, any other successful hop sets c_dist |
| Sessions.InfrastructureV2 | src/DW1000JangRTLS.cpp:755-888 | the _v2 loop's result on a script, with main_dist from the first hop |
| Sessions.LaterHopsV2Agrees | src/DW1000JangRTLS.cpp:798-870 | the _v2 loop is determined exactly when the v1 one is, with the same success and rate |
| Sessions.InfrastructureV2Agrees | src/DW1000JangRTLS.cpp:755-888 | tagRangeInfrastructure_v2 agrees with tagRangeInfrastructure on success and rate on every script |
| Sessions.InfrastructureV2ReportsLastFinished | src/DW1000JangRTLS.cpp:872-885 | a successful _v2 run ended on a last-hop Finished and reports its rate cast to uint16_t |
| Sessions.ConfirmV2DrivesTag | src/DW1000JangRTLS.cpp:738-739 | a _v2 Confirm yields the next anchor and the distance it carried |
| Sessions.FinishedV2DrivesTag | src/DW1000JangRTLS.cpp:740-741 | a _v2 Finished yields the blink rate and the distance it carried |
| Sessions.ThreeAnchorDistances | src/DW1000JangRTLS.cpp:805-861 | a three-anchor _v2 run reports the main, b and c distances from the right frames |
| Sessions.Localize | src/DW1000JangRTLS.cpp:623-634 | localization fails with {false, 0} without a Ranging Initiation; a success is the infrastructure run's result |
| Sessions.LocalizeV2 | src/DW1000JangRTLS.cpp:891-902 | as Localize, for the _v2 result |
| Sessions.LocalizeFailureIsUniform | src/DW1000JangRTLS.cpp:633 | every definite localization failure is the all-zero result |
| Sessions.CapDistance | src/DW1000JangRTLS.cpp:967-969 | a distance above 65 m becomes 0, and smaller ones are kept |
| Sessions.DistanceVerdict | src/DW1000JangRTLS.cpp:960-979 | a definite failure exactly when byte 9 is not ACTIVITY_CONTROL |
| Sessions.DistanceRequest | src/DW1000JangRTLS.cpp:912-989 | a distance request succeeds exactly when a Confirm follows the Response; the distance is the capped field at 13; definite failures are {false, 0} |
| Sessions.DistanceRoundTrip | src/DW1000JangRTLS.cpp:960-971 | a Confirm with a distance gives that distance, or 0 above 65000 mm |
| Sessions.ShortConfirmDistanceUnknown | src/DW1000JangRTLS.cpp:964-967 | a 13-byte Confirm succeeds with a distance read past the frame's end |
| Sessions.Accept | src/DW1000JangRTLS.cpp:461-483 | past the Poll stage the anchor holds the received Poll; a Final stage holds the received Final |
| Sessions.AcceptStageCases | src/DW1000JangRTLS.cpp:461-483 | each failure stage happens exactly under its timeout or bad-code condition |
| Sessions.RangeInputsOf | src/DW1000JangRTLS.cpp:497-504 | the range is computed from the anchor's own three times and the Final's three fields, defined when the width is at most 4 |
| Sessions.Clamp | src/DW1000JangRTLS.cpp:508-510 | the reported range is always positive, equals a positive measured range, and is 0.000001 otherwise |
| Rtls.SentTimeMatchesRegister | src/DW1000JangRTLS.cpp:85-89 | the returned send time is the delayed-TRX register's value plus the antenna delay, when nothing wraps |
| Rtls.RegisterKeepsLowBytes | src/DW1000JangRTLS.cpp:87 | the delayed-TRX register keeps the low LENGTH_TIMESTAMP bytes of the scheduled time |
| Rtls.AnchorReadsTagFinal | src/DW1000JangRTLS.cpp:497-504 | a Poll then a tag's Final reach the range stage, both name the tag, and the range uses the Final's timestamps |
| Rtls.BuildPoll | src/DW1000JangRTLS.cpp:58-65 | the Poll initializer with its copies is the Poll frame |
| Rtls.BuildDelayedResponse | src/DW1000JangRTLS.cpp:91-97 | the delayed Response initializer with its copies is the 24-byte Response |
| Rtls.BuildFinal | src/DW1000JangRTLS.cpp:135-145 | the Final initializer with its copies is the Final frame |
| Rtls.BuildFinalWithPhase | src/DW1000JangRTLS.cpp:161-172 | the _v2 Final initializer with its copies is the Final with phase |
| Rtls.BuildPostFinal | src/DW1000JangRTLS.cpp:215-221 | the Post-Final initializer with its copies is the Post-Final frame |
| Rtls.BuildDistanceConfirm | src/DW1000JangRTLS.cpp:260-264 | the distance Confirm initializer with its copies is the distance Confirm |
| Rtls.BuildPaddedConfirm | src/DW1000JangRTLS.cpp:287-291 | the 17-byte transmitRangingConfirm_v3 initializer with its copies is the padded Confirm as written |
| Rtls.BuildBlink | src/DW1000JangRTLS.cpp:42-43 | the Blink initializer with the EUI copied in is the Blink frame |
| Rtls.BuildRangingInitiation | src/DW1000JangRTLS.cpp:49-53 | the Ranging Initiation initializer with its copies is the Ranging Initiation frame |
| Rtls.BuildResponse | src/DW1000JangRTLS.cpp:71-76 | the 13-byte Response initializer with its copies is the Response frame |
| Rtls.BuildConfirm | src/DW1000JangRTLS.cpp:249-254 | the Confirm initializer with its copies is the Confirm naming the next anchor |
| Rtls.BuildConfirmNextDistance | src/DW1000JangRTLS.cpp:270-274 | the _v2 Confirm initializer with its copies carries the next anchor and the distance |
| Rtls.BuildFinished | src/DW1000JangRTLS.cpp:299-302 | the Finished initializer with its copies carries the blink rate |
| Rtls.BuildFinishedDistance | src/DW1000JangRTLS.cpp:309-313 | the _v2 Finished initializer with its copies carries the blink rate and the distance |
| Rtls.Node.constructor | src/DW1000JangRTLS.cpp:32 | the sequence number starts at 0 |
| Rtls.Node.IncreaseSequenceNumber | src/DW1000JangRTLS.cpp:37-39 | the counter advances mod 256 and the new value is returned |
| Rtls.Node.TakeSequenceNumber | src/DW1000JangRTLS.cpp:42 | `SEQ_NUMBER++` in an initializer: the frame gets the old value and the counter advances mod 256 |
| Rtls.Node.ScheduleDelayed | src/DW1000JangRTLS.cpp:129-133 | the register holds the low bytes of base plus the converted delay |
| Rtls.Node.TransmitTwrShortBlink | src/DW1000JangRTLS.cpp:41-46 | one immediate Blink with the old sequence number and the EUI is sent |
| Rtls.Node.TransmitRangingInitiation | src/DW1000JangRTLS.cpp:48-56 | one immediate Ranging Initiation is sent |
| Rtls.Node.TransmitPoll | src/DW1000JangRTLS.cpp:58-68 | one immediate Poll to the anchor is sent |
| Rtls.Node.TransmitResponseToPoll | src/DW1000JangRTLS.cpp:70-79 | one immediate 13-byte Response is sent |
| Rtls.Node.TransmitResponseToPollV2 | src/DW1000JangRTLS.cpp:81-102 | a delayed Response is scheduled from the rx time; the return is the send time including the antenna delay |
| Rtls.Node.TransmitResponseToPollV3 | src/DW1000JangRTLS.cpp:104-123 | as _v2, without the return value |
| Rtls.Node.TransmitFinalMessage | src/DW1000JangRTLS.cpp:125-148 | a delayed Final is scheduled from the system clock and embeds its own send time |
| Rtls.Node.TransmitFinalMessageV2 | src/DW1000JangRTLS.cpp:151-175 | a delayed Final with phase is scheduled from the last rx time |
| Rtls.Node.TransmitFinalMessageV3 | src/DW1000JangRTLS.cpp:178-202 | a delayed Final with phase is scheduled from the system clock |
| Rtls.Node.TransmitPostFinalMessage | src/DW1000JangRTLS.cpp:205-224 | a delayed Post-Final is scheduled from the last tx time |
| Rtls.Node.TransmitPostFinalMessageV2 | src/DW1000JangRTLS.cpp:227-246 | a delayed Post-Final is scheduled from the system clock |
| Rtls.Node.TransmitRangingConfirm | src/DW1000JangRTLS.cpp:248-257 | a Confirm naming the next anchor is sent |
| Rtls.Node.TransmitRangingConfirmV1 | src/DW1000JangRTLS.cpp:259-267 | a Confirm carrying the millimetre distance at 13 is sent |
| Rtls.Node.TransmitRangingConfirmV2 | src/DW1000JangRTLS.cpp:269-277 | a Confirm carrying the next anchor and the distance is sent |
| Rtls.Node.TransmitRangingConfirmV3 | src/DW1000JangRTLS.cpp:279-294 | the 17-byte padded Confirm as written is sent delayed, 3000 us after the system clock (see Findings) |
| Rtls.Node.TransmitRangingConfirmV3Corrected | src/DW1000JangRTLS.cpp:279-294 | with the initializer corrected to the _v1 layout, a Confirm the tags accept is sent on the same schedule |
| Rtls.Node.TransmitActivityFinished | src/DW1000JangRTLS.cpp:297-305 | a Finished carrying the blink rate is sent |
| Rtls.Node.TransmitActivityFinishedV2 | src/DW1000JangRTLS.cpp:307-316 | a Finished carrying the blink rate and the distance is sent |
| Rtls.Node.WaitForTransmission | src/DW1000JangRTLS.cpp:330-337 | the tx timestamp becomes the completed transmission's |
| Rtls.Node.ReceiveFrame | src/DW1000JangRTLS.cpp:339-352 | one immediate reception with the scripted outcome |
| Rtls.Node.ReceiveFrameV2 | src/DW1000JangRTLS.cpp:354-374 | a delayed reception scheduled from the last tx time |
| Rtls.Node.ReceiveFrameV3 | src/DW1000JangRTLS.cpp:376-396 | a delayed reception scheduled from the last rx time |
| Rtls.Node.ReceiveFrame2 | src/DW1000JangRTLS.cpp:398-419 | a delayed reception 2000 us after the system clock |
| Rtls.Node.WaitForNextRangingStep | src/DW1000JangRTLS.cpp:421-425 | the transmission completes, then one immediate reception |
| Rtls.Node.WaitForNextRangingStepV2 | src/DW1000JangRTLS.cpp:427-431 | the transmission completes, then a delayed reception from its tx time |
| Rtls.Node.WaitForNextRangingStep2 | src/DW1000JangRTLS.cpp:433-437 | the transmission completes, then receiveFrame2 |
| Rtls.Node.PollExchange | src/DW1000JangRTLS.cpp:527-544 | a tag exchange transmits the Poll, and the Final exactly when the Response is accepted |
| Rtls.Node.ExchangePollsAnchor | src/DW1000JangRTLS.cpp:525-544 | of one exchange's frames only the first is a Poll, and it is addressed to the anchor |
| Rtls.Node.ResponseLog | src/DW1000JangRTLS.cpp:469-473 | an anchor transmits the Response exactly when it accepted a Poll |
| Rtls.Node.TagRangeRequest | src/DW1000JangRTLS.cpp:439-454 | returns RangeRequest, takes AssignedAddress, consumes one event, sends one Blink |
| Rtls.Node.TagFinishRange | src/DW1000JangRTLS.cpp:521-571 | returns FinishRange, consumes FinishRangeRest, transmits PollExchange (so polls the anchor exactly once), advances the sequence by the frames sent |
| Rtls.Node.TagFinishRangeV2 | src/DW1000JangRTLS.cpp:704-753 | as TagFinishRange, returning FinishRangeV2 |
| Rtls.Node.TagRangeInfrastructure | src/DW1000JangRTLS.cpp:573-620 | the loop over hops returns Infrastructure of the script, and the Polls it sends go, in order, to PolledAnchors: the target, then each Confirm's next_anchor |
| Rtls.Node.TagRangeInfrastructureV2 | src/DW1000JangRTLS.cpp:755-888 | the _v2 loop returns InfrastructureV2 of the script and polls PolledAnchors in order |
| Rtls.Node.TagTwrLocalize | src/DW1000JangRTLS.cpp:623-634 | returns Localize of the script, and the tag keeps the short address the Ranging Initiation assigned (AssignedAddress), or its old one when none arrived |
| Rtls.Node.TagTwrLocalizeV2 | src/DW1000JangRTLS.cpp:891-902 | returns LocalizeV2 of the script, and the tag's address becomes AssignedAddress of the script |
| Rtls.Node.TagDistanceRequest | src/DW1000JangRTLS.cpp:912-989 | returns DistanceRequest, consumes FinishRangeRest, transmits PollExchange |
| Rtls.Node.ReceivePollAndFinal | src/DW1000JangRTLS.cpp:461-483 | the anchor's two receptions follow Accept; it sends the Response when the Poll is accepted and returns its tx time |
| Rtls.Node.AnchorRangeAccept | src/DW1000JangRTLS.cpp:456-519 | timeouts give failure, bad frames give an undetermined result, and a Final gives the clamped range and sends the verdict frame; one scripted event is used after a missing or bad Poll, two otherwise |
| Rtls.Node.AnchorRangeAcceptV2 | src/DW1000JangRTLS.cpp:639-702 | as AnchorRangeAccept; the verdict frame carries the unclamped distance in millimetres |
| Rtls.Node.AnchorDistanceResponse | src/DW1000JangRTLS.cpp:993-1057 | as AnchorRangeAccept; the verdict is a _v2 Confirm with next anchor 0x0000 and the distance |

## Left out

- The busy-wait loops on isTransmitDone, isReceiveDone and isReceiveTimeout become one atomic step of the radio, whose outcome is a scripted event; `yield()` is left out.
- Serial trace output and `delayMicroseconds` are left out; they do not affect any result or frame.
- Floating point is not modelled. The double-to-`uint16_t` millimetre cast is the `millimetres` parameter and the phase is passed as a natural number. The distance request's `tmp / 1000.0 > 65` test is modelled as a millimetre value above 65000, and the distances of the `_v2` results are kept in millimetres.
- `computeRangeAsymmetric` and `correctRange` (DW1000JangRanging) are not part of this model; they are the `computeRange` parameter, applied to the six timestamps.
- `microsecondsToUWBTime` and `LENGTH_TIMESTAMP` (DW1000JangTime and the driver headers) are not part of this model; they are parameters of `Node`.
- `writeValueToBytes` and `bytesAsValue` (DW1000JangUtils) are not part of this model; they are defined here as little-endian conversions, which is what the round-trip lemmas rely on.
- The DW1000Jang driver is not part of this model; only the calls the RTLS layer makes are modelled, by the `Driver.Radio` class. The system clock is a constant and the tx timestamps are a script rather than measured times.
- Rtls.Node.TagRangeInfrastructure: ends the run with `Indeterminate` as soon as a hop's result is undetermined; the C code would carry on with whatever the uninitialised struct held.
- Rtls.Node.TagRangeInfrastructureV2: same simplification as TagRangeInfrastructure for undetermined hops.
- Rtls.Node.TagRangeInfrastructure: of the transmit log it states the anchors polled, in order, not every frame; the Finals' timestamps, the sequence numbers and the remaining script depend on every hop's scripted tx times, and TagFinishRange states them hop by hop.
- Rtls.Node.TagRangeInfrastructureV2: states the anchors polled, not every frame, sequence number or the remaining script, for the same reason as TagRangeInfrastructure.
- Rtls.Node.TagTwrLocalize: states the result and the new device address, not the transmit log, the sequence number or the remaining script; those come from the infrastructure loop, which states only the polled anchors of its log (see Rtls.Node.TagRangeInfrastructure above), and TagRangeRequest and TagFinishRange state them step by step.
- Rtls.Node.TagTwrLocalizeV2: states the result and the new device address, not the transmit log, the sequence number or the remaining script, for the same reason as TagTwrLocalize.
- Rtls.Node.TagDistanceRequest: `act_recv` is a `char` array in the source, signed on some targets; the model reads its bytes unsigned, as the other routines do.
- Rtls.Node.AnchorRangeAccept: the session methods do not state the scratch registers they leave behind (rx data, rx timestamp, rx mode log, tx timestamps, delayed-TRX register).
- Rtls.Node.AnchorRangeAcceptV2: does not state the scratch registers, as for AnchorRangeAccept.
- Rtls.Node.AnchorDistanceResponse: does not state the scratch registers, as for AnchorRangeAccept.
- Concurrency and interrupts are not modelled: every routine runs to completion on a single radio.

## Findings

| source | as written | input that shows it | evidently intended | confidence | as-written member | corrected member |
|---|---|---|---|---|---|---|
| src/DW1000JangRTLS.cpp:287 | the transmitRangingConfirm_v3 initializer has two extra zero bytes before ACTIVITY_CONTROL, which puts the function code at 11 and the activity code at 12 | any call: byte 9 of the frame is 0, so the tag's `act_recv[9] == ACTIVITY_CONTROL` check (line 554, and 960 in Tag_Distance_Request) rejects it | the transmitRangingConfirm_v1 layout, with ACTIVITY_CONTROL at 9, RANGING_CONFIRM at 10 and the distance at 13..14, as Rtls.Node.TransmitRangingConfirmV3Corrected sends it | not executed | Frames.PaddedConfirmRejected | Frames.DistanceConfirmAccepted |
