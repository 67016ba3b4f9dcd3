/**
 * The RTLS layer (namespace DW1000JangRTLS): the frame builders, the receive helpers and the
 * tag and anchor state machines. They run on one radio and share the process-wide SEQ_NUMBER.
 *
 * The helpers the layer calls but does not define are fixed when a Node is built:
 * microsecondsToUWBTime, LENGTH_TIMESTAMP, the ranging arithmetic (computeRangeAsymmetric then
 * correctRange) and the double-to-uint16 millimetre cast `(uint16_t)(distance * 1000)`.
 */
module Rtls {
  import opened Bytes
  import opened Protocol
  import opened Frames
  import opened Driver
  import opened Sessions

  /**
   * The value of a delayed-TRX register of len bytes, plus the antenna delay, is the "sent" time
   * the builders compute, as long as neither the register nor the 64-bit sum wraps.
   */
  lemma SentTimeMatchesRegister(scheduled: nat, antennaDelay: nat, len: nat)
    requires scheduled < Pow256(len) && scheduled + antennaDelay < UINT64_MODULUS
    ensures AddUint64(scheduled, antennaDelay) == BytesAsValue(WriteValueToBytes(scheduled, len)) + antennaDelay
  {
    ValueRoundTrip(scheduled, len);
  }

  /** What a register of len bytes keeps of a scheduled time: its low len bytes. */
  lemma RegisterKeepsLowBytes(scheduled: nat, len: nat)
    ensures BytesAsValue(WriteValueToBytes(scheduled, len)) == scheduled % Pow256(len)
    ensures len >= 8 && scheduled < UINT64_MODULUS ==> BytesAsValue(WriteValueToBytes(scheduled, len)) == scheduled
  {
    ValueRoundTrip(scheduled, len);
    if len >= 8 {
      Pow256Widths();
      var k := Pow256Divides(8, len);
      assert Pow256(len) == UINT64_MODULUS * k;
      if scheduled < UINT64_MODULUS {
        MulAwayFromZero(UINT64_MODULUS, k);
        ModUnique(scheduled, Pow256(len), 0, scheduled);
      }
    }
  }

  /**
   * A tag's Poll followed by its Final reaches the anchor's range computation intact: with
   * 4-byte timestamp reads the anchor gets the tag's three send and receive times, each cut
   * to 32 bits, beside its own receive times and its Response's send time.
   */
  lemma AnchorReadsTagFinal(events: seq<Event>, sq: byte, sq2: byte, net: seq<byte>, anchor: seq<byte>, tag: seq<byte>,
                            pollSent: nat, responseReceived: nat, finalSent: nat, responseSent: nat)
    requires |net| == 2 && |anchor| == 2 && |tag| == 2 && |events| >= 2 && events[0].Frame? && events[1].Frame?
    requires events[0].data == PollFrame(sq, net, anchor, tag)
    requires events[1].data == FinalFrame(sq2, net, anchor, tag, WriteValueToBytes(ToUint32(pollSent), 4),
                                          WriteValueToBytes(ToUint32(responseReceived), 4), WriteValueToBytes(ToUint32(finalSent), 4))
    ensures var st := Accept(events);
      && st.FinalReceived? && st.poll[7..9] == tag && st.final[7..9] == tag
      && RangeInputsOf(st.final, 4, st.pollRx, responseSent, st.finalRx)
         == RangeInputs(Known(ToUint32(pollSent)), events[0].rxTime, responseSent,
                        Known(ToUint32(responseReceived)), Known(ToUint32(finalSent)), events[1].rxTime)
  {
    ReadersTellFramesApart(sq, net, anchor, tag, [0, 0], [0, 0, 0, 0]);
    FinalTimestampsDecode(sq2, net, anchor, tag, pollSent, responseReceived, finalSent);
    assert events[1..][0] == events[1];
    assert events[0].data[7..9] == tag;
    assert events[1].data[7..9] == tag;
  }

  /**
   * The three copies every data-frame builder makes into its header: getNetworkId at 3,
   * memcpy of the destination at 5 and getDeviceAddress at 7.
   */
  method PutDataHeader(radio: Radio, a: array<byte>, dst: seq<byte>)
    requires |dst| == 2 && 9 <= a.Length
    modifies a
    ensures a[3] == radio.NetworkIdBytes()[0] && a[4] == radio.NetworkIdBytes()[1]
    ensures a[5] == dst[0] && a[6] == dst[1]
    ensures a[7] == radio.DeviceAddressBytes()[0] && a[8] == radio.DeviceAddressBytes()[1]
    ensures forall i | 0 <= i < a.Length && (i < 3 || 9 <= i) :: a[i] == old(a[i])
  {
    radio.GetNetworkId(a, 3);
    Put2(a, 5, dst);
    radio.GetDeviceAddress(a, 7);
  }

  /** The three 4-byte timestamps every Final carries at 10, 14 and 18. */
  method PutTimestamps(a: array<byte>, pollSent: seq<byte>, responseReceived: seq<byte>, finalSent: seq<byte>)
    requires |pollSent| == 4 && |responseReceived| == 4 && |finalSent| == 4 && 22 <= a.Length
    modifies a
    ensures forall k | 0 <= k < 4 :: a[10 + k] == pollSent[k] && a[14 + k] == responseReceived[k] && a[18 + k] == finalSent[k]
    ensures forall i | 0 <= i < a.Length && (i < 10 || 22 <= i) :: a[i] == old(a[i])
  {
    Put4(a, 10, pollSent);
    Put4(a, 14, responseReceived);
    Put4(a, 18, finalSent);
  }

  /** The Blink initialiser of transmitTwrShortBlink with the EUI copied in. */
  method BuildBlink(radio: Radio, sq: byte) returns (frame: seq<byte>)
    ensures frame == BlinkFrame(sq, radio.eui)
  {
    var blink := new byte[] [BLINK, sq, 0, 0, 0, 0, 0, 0, 0, 0, BLINK_HEADER, TAG_LISTENING_NOW];
    radio.GetEui(blink, 2);
    frame := blink[..];
  }

  /** The Ranging Initiation initialiser of transmitRangingInitiation with its copies. */
  method BuildRangingInitiation(radio: Radio, sq: byte, tagEui: seq<byte>, tagShortAddress: seq<byte>) returns (frame: seq<byte>)
    requires |tagEui| == 8 && |tagShortAddress| == 2
    ensures frame == RangingInitiationFrame(sq, radio.NetworkIdBytes(), tagEui, radio.DeviceAddressBytes(), tagShortAddress)
  {
    var init := new byte[] [DATA, SHORT_SRC_LONG_DEST, sq, 0, 0, 0, 0, 0, 0, 0, 0, 0, 0, 0, 0, RANGING_INITIATION, 0, 0];
    radio.GetNetworkId(init, 3);
    Put8(init, 5, tagEui);
    radio.GetDeviceAddress(init, 13);
    Put2(init, 16, tagShortAddress);
    frame := init[..];
  }

  /** The Poll initialiser of transmitPoll with its three memcpys. */
  method BuildPoll(radio: Radio, sq: byte, anchorAddress: seq<byte>) returns (frame: seq<byte>)
    requires |anchorAddress| == 2
    ensures frame == PollFrame(sq, radio.NetworkIdBytes(), anchorAddress, radio.DeviceAddressBytes())
  {
    var poll := new byte[] [DATA, SHORT_SRC_AND_DEST, sq, 0, 0, 0, 0, 0, 0, RANGING_TAG_POLL,
                            0, 0, 0, 0, 0, 0, 0, 0, 0, 0, 0, 0, 0, 0];
    PutDataHeader(radio, poll, anchorAddress);
    frame := poll[..];
  }

  /** The 13-byte Response initialiser of transmitResponseToPoll with its copies. */
  method BuildResponse(radio: Radio, sq: byte, tagShortAddress: seq<byte>) returns (frame: seq<byte>)
    requires |tagShortAddress| == 2
    ensures frame == ResponseToPollFrame(sq, radio.NetworkIdBytes(), tagShortAddress, radio.DeviceAddressBytes())
  {
    var ack := new byte[] [DATA, SHORT_SRC_AND_DEST, sq, 0, 0, 0, 0, 0, 0, ACTIVITY_CONTROL, RANGING_CONTINUE, 0, 0];
    PutDataHeader(radio, ack, tagShortAddress);
    frame := ack[..];
  }

  /** The Response initialiser of transmitResponseToPoll_v2 and _v3 with its memcpys. */
  method BuildDelayedResponse(radio: Radio, sq: byte, anchorAddress: seq<byte>) returns (frame: seq<byte>)
    requires |anchorAddress| == 2
    ensures frame == DelayedResponseToPollFrame(sq, radio.NetworkIdBytes(), anchorAddress, radio.DeviceAddressBytes())
  {
    var ack := new byte[] [DATA, SHORT_SRC_AND_DEST, sq, 0, 0, 0, 0, 0, 0, ACTIVITY_CONTROL, RANGING_CONTINUE,
                           0, 0, 0, 0, 0, 0, 0, 0, 0, 0, 0, 0, 0];
    PutDataHeader(radio, ack, anchorAddress);
    frame := ack[..];
  }

  /** The Final initialiser of transmitFinalMessage with its memcpys of the three timestamps. */
  method BuildFinal(radio: Radio, sq: byte, anchorAddress: seq<byte>, pollSent: seq<byte>, responseReceived: seq<byte>,
                    finalSent: seq<byte>) returns (frame: seq<byte>)
    requires |anchorAddress| == 2 && |pollSent| == 4 && |responseReceived| == 4 && |finalSent| == 4
    ensures frame == FinalFrame(sq, radio.NetworkIdBytes(), anchorAddress, radio.DeviceAddressBytes(),
                                pollSent, responseReceived, finalSent)
  {
    var final := new byte[] [DATA, SHORT_SRC_AND_DEST, sq, 0, 0, 0, 0, 0, 0, RANGING_TAG_FINAL_RESPONSE_EMBEDDED,
                             0, 0, 0, 0, 0, 0, 0, 0, 0, 0, 0, 0];
    PutDataHeader(radio, final, anchorAddress);
    PutTimestamps(final, pollSent, responseReceived, finalSent);
    frame := final[..];
  }

  /** The Final initialiser of transmitFinalMessage_v2 and _v3: three timestamps and the phase. */
  method BuildFinalWithPhase(radio: Radio, sq: byte, anchorAddress: seq<byte>, pollSent: seq<byte>, responseReceived: seq<byte>,
                             finalSent: seq<byte>, phase: seq<byte>) returns (frame: seq<byte>)
    requires |anchorAddress| == 2 && |pollSent| == 4 && |responseReceived| == 4 && |finalSent| == 4 && |phase| == 4
    ensures frame == FinalWithPhaseFrame(sq, radio.NetworkIdBytes(), anchorAddress, radio.DeviceAddressBytes(),
                                         pollSent, responseReceived, finalSent, phase)
  {
    var final := new byte[] [DATA, SHORT_SRC_AND_DEST, sq, 0, 0, 0, 0, 0, 0, RANGING_TAG_FINAL_RESPONSE_EMBEDDED,
                             0, 0, 0, 0, 0, 0, 0, 0, 0, 0, 0, 0, 0, 0, 0, 0];
    PutDataHeader(radio, final, anchorAddress);
    PutTimestamps(final, pollSent, responseReceived, finalSent);
    Put4(final, 22, phase);
    frame := final[..];
  }

  /** The Post-Final initialiser of transmitPostFinalMessage and _v2. */
  method BuildPostFinal(radio: Radio, sq: byte, anchorAddress: seq<byte>) returns (frame: seq<byte>)
    requires |anchorAddress| == 2
    ensures frame == PostFinalFrame(sq, radio.NetworkIdBytes(), anchorAddress, radio.DeviceAddressBytes())
  {
    var post := new byte[] [DATA, SHORT_SRC_AND_DEST, sq, 0, 0, 0, 0, 0, 0, RANGING_TAG_POST_FINAL_RESPONSE_EMBEDDED,
                            0, 0, 0, 0, 0, 0, 0, 0, 0, 0, 0, 0, 0, 0];
    PutDataHeader(radio, post, anchorAddress);
    frame := post[..];
  }

  /** The Confirm initialiser of transmitRangingConfirm, the next anchor at 11..12. */
  method BuildConfirm(radio: Radio, sq: byte, tagShortAddress: seq<byte>, nextAnchor: seq<byte>) returns (frame: seq<byte>)
    requires |tagShortAddress| == 2 && |nextAnchor| == 2
    ensures frame == RangingConfirmFrame(sq, radio.NetworkIdBytes(), tagShortAddress, radio.DeviceAddressBytes(), nextAnchor)
  {
    var confirm := new byte[] [DATA, SHORT_SRC_AND_DEST, sq, 0, 0, 0, 0, 0, 0, ACTIVITY_CONTROL, RANGING_CONFIRM, nextAnchor[0], nextAnchor[1]];
    PutDataHeader(radio, confirm, tagShortAddress);
    frame := confirm[..];
  }

  /** The Confirm initialiser of transmitRangingConfirm_v2: next anchor at 11..12, distance at 13..14. */
  method BuildConfirmNextDistance(radio: Radio, sq: byte, tagShortAddress: seq<byte>, nextAnchor: seq<byte>, distance: seq<byte>)
    returns (frame: seq<byte>)
    requires |tagShortAddress| == 2 && |nextAnchor| == 2 && |distance| == 2
    ensures frame == RangingConfirmNextDistanceFrame(sq, radio.NetworkIdBytes(), tagShortAddress, radio.DeviceAddressBytes(),
                                                     nextAnchor, distance)
  {
    var confirm := new byte[] [DATA, SHORT_SRC_AND_DEST, sq, 0, 0, 0, 0, 0, 0, ACTIVITY_CONTROL, RANGING_CONFIRM, nextAnchor[0], nextAnchor[1], 0, 0];
    PutDataHeader(radio, confirm, tagShortAddress);
    Put2(confirm, 13, distance);
    frame := confirm[..];
  }

  /** The Finished initialiser of transmitActivityFinished, the encoded blink rate at 11..12. */
  method BuildFinished(radio: Radio, sq: byte, tagShortAddress: seq<byte>, blinkRate: seq<byte>) returns (frame: seq<byte>)
    requires |tagShortAddress| == 2 && |blinkRate| == 2
    ensures frame == ActivityFinishedFrame(sq, radio.NetworkIdBytes(), tagShortAddress, radio.DeviceAddressBytes(), blinkRate)
  {
    var finished := new byte[] [DATA, SHORT_SRC_AND_DEST, sq, 0, 0, 0, 0, 0, 0, ACTIVITY_CONTROL, ACTIVITY_FINISHED, blinkRate[0], blinkRate[1], 0, 0];
    PutDataHeader(radio, finished, tagShortAddress);
    frame := finished[..];
  }

  /** The Finished initialiser of transmitActivityFinished_v2: blink rate at 11..12, distance at 13..14. */
  method BuildFinishedDistance(radio: Radio, sq: byte, tagShortAddress: seq<byte>, blinkRate: seq<byte>, distance: seq<byte>)
    returns (frame: seq<byte>)
    requires |tagShortAddress| == 2 && |blinkRate| == 2 && |distance| == 2
    ensures frame == ActivityFinishedDistanceFrame(sq, radio.NetworkIdBytes(), tagShortAddress, radio.DeviceAddressBytes(),
                                                   blinkRate, distance)
  {
    var finished := new byte[] [DATA, SHORT_SRC_AND_DEST, sq, 0, 0, 0, 0, 0, 0, ACTIVITY_CONTROL, ACTIVITY_FINISHED, blinkRate[0], blinkRate[1], 0, 0];
    PutDataHeader(radio, finished, tagShortAddress);
    Put2(finished, 13, distance);
    frame := finished[..];
  }

  /** The distance Confirm initialiser of transmitRangingConfirm_v1, distance at 13..14. */
  method BuildDistanceConfirm(radio: Radio, sq: byte, tagShortAddress: seq<byte>, distance: seq<byte>) returns (frame: seq<byte>)
    requires |tagShortAddress| == 2 && |distance| == 2
    ensures frame == RangingConfirmDistanceFrame(sq, radio.NetworkIdBytes(), tagShortAddress, radio.DeviceAddressBytes(), distance)
  {
    var confirm := new byte[] [DATA, SHORT_SRC_AND_DEST, sq, 0, 0, 0, 0, 0, 0, ACTIVITY_CONTROL, RANGING_CONFIRM, 0, 0, 0, 0];
    PutDataHeader(radio, confirm, tagShortAddress);
    Put2(confirm, 13, distance);
    frame := confirm[..];
  }

  /** The 17-byte initialiser of transmitRangingConfirm_v3 as written: activity codes at 11..12, distance at 13..14. */
  method BuildPaddedConfirm(radio: Radio, sq: byte, tagShortAddress: seq<byte>, distance: seq<byte>) returns (frame: seq<byte>)
    requires |tagShortAddress| == 2 && |distance| == 2
    ensures frame == RangingConfirmPaddedFrame(sq, radio.NetworkIdBytes(), tagShortAddress, radio.DeviceAddressBytes(), distance)
  {
    var confirm := new byte[] [DATA, SHORT_SRC_AND_DEST, sq, 0, 0, 0, 0, 0, 0, 0, 0, ACTIVITY_CONTROL, RANGING_CONFIRM, 0, 0, 0, 0];
    PutDataHeader(radio, confirm, tagShortAddress);
    Put2(confirm, 13, distance);
    frame := confirm[..];
  }

  class Node {
    /** SEQ_NUMBER. */
    var seqNumber: byte
    const radio: Radio
    /** DW1000JangTime::microsecondsToUWBTime. */
    const usToUwb: nat -> nat
    /** LENGTH_TIMESTAMP: the width of the delayed-TRX register and of the anchors' timestamp reads. */
    const timestampLength: nat
    /** correctRange(computeRangeAsymmetric(...)). */
    const computeRange: RangeInputs -> real
    /** static_cast<uint16_t>(distance * 1000). */
    const millimetres: real -> uint16

    constructor(radio: Radio, usToUwb: nat -> nat, timestampLength: nat, computeRange: RangeInputs -> real, millimetres: real -> uint16)
      ensures seqNumber == 0
      ensures this.radio == radio && this.usToUwb == usToUwb && this.timestampLength == timestampLength
      ensures this.computeRange == computeRange && this.millimetres == millimetres
    {
      seqNumber := 0;
      this.radio := radio;
      this.usToUwb := usToUwb;
      this.timestampLength := timestampLength;
      this.computeRange := computeRange;
      this.millimetres := millimetres;
    }

    /** increaseSequenceNumber: ++SEQ_NUMBER, returning the incremented value. */
    method IncreaseSequenceNumber() returns (s: byte)
      modifies this`seqNumber
      ensures seqNumber == NextSequence(old(seqNumber)) && s == seqNumber
    {
      seqNumber := NextSequence(seqNumber);
      s := seqNumber;
    }

    /** SEQ_NUMBER++ inside a frame initialiser: the frame gets the old value. */
    method TakeSequenceNumber() returns (s: byte)
      modifies this`seqNumber
      ensures s == old(seqNumber) && seqNumber == NextSequence(s)
    {
      s := seqNumber;
      seqNumber := NextSequence(seqNumber);
    }

    /* ---------- Delay scheduling ---------- */

    /** A base timestamp plus microsecondsToUWBTime(delay), in uint64_t. */
    function Scheduled(base: nat, delayUs: nat): nat
    {
      AddUint64(base, usToUwb(delayUs))
    }

    /** The scheduled time plus the tx antenna delay: when the frame actually leaves. */
    function SentAt(base: nat, delayUs: nat): nat
    {
      AddUint64(Scheduled(base, delayUs), radio.txAntennaDelay)
    }

    /** writeValueToBytes(futureTimeBytes, time, LENGTH_TIMESTAMP) then setDelayedTRX(futureTimeBytes). */
    method ScheduleDelayed(base: nat, delayUs: nat) returns (time: nat)
      modifies radio`delayedTrx
      ensures time == Scheduled(base, delayUs)
      ensures radio.delayedTrx == WriteValueToBytes(time, timestampLength)
      ensures |radio.delayedTrx| == timestampLength && BytesAsValue(radio.delayedTrx) == time % Pow256(timestampLength)
    {
      time := AddUint64(base, usToUwb(delayUs));
      radio.SetDelayedTrx(WriteValueToBytes(time, timestampLength));
      ValueRoundTrip(time, timestampLength);
    }

    /* ---------- Frame builders ---------- */

    /** transmitTwrShortBlink. */
    method TransmitTwrShortBlink()
      modifies this`seqNumber, radio`txData, radio`txLog
      ensures seqNumber == NextSequence(old(seqNumber))
      ensures radio.Sent(BlinkFrame(old(seqNumber), radio.eui), Immediate)
    {
      var sq := TakeSequenceNumber();
      var blink := BuildBlink(radio, sq);
      radio.SetTransmitData(blink);
      radio.StartTransmit(Immediate);
    }

    /** transmitRangingInitiation (anchor to a blinking tag). */
    method TransmitRangingInitiation(tagEui: seq<byte>, tagShortAddress: seq<byte>)
      requires |tagEui| == 8 && |tagShortAddress| == 2
      modifies this`seqNumber, radio`txData, radio`txLog
      ensures seqNumber == NextSequence(old(seqNumber))
      ensures radio.Sent(RangingInitiationFrame(old(seqNumber), radio.NetworkIdBytes(), tagEui, radio.DeviceAddressBytes(), tagShortAddress), Immediate)
    {
      var sq := TakeSequenceNumber();
      var init := BuildRangingInitiation(radio, sq, tagEui, tagShortAddress);
      radio.SetTransmitData(init);
      radio.StartTransmit(Immediate);
    }

    /** transmitPoll. */
    method TransmitPoll(anchorAddress: seq<byte>)
      requires |anchorAddress| == 2
      modifies this`seqNumber, radio`txData, radio`txLog
      ensures seqNumber == NextSequence(old(seqNumber))
      ensures radio.Sent(PollFrame(old(seqNumber), radio.NetworkIdBytes(), anchorAddress, radio.DeviceAddressBytes()), Immediate)
    {
      var sq := TakeSequenceNumber();
      var poll := BuildPoll(radio, sq, anchorAddress);
      radio.SetTransmitData(poll);
      radio.StartTransmit(Immediate);
    }

    /** transmitResponseToPoll. */
    method TransmitResponseToPoll(tagShortAddress: seq<byte>)
      requires |tagShortAddress| == 2
      modifies this`seqNumber, radio`txData, radio`txLog
      ensures seqNumber == NextSequence(old(seqNumber))
      ensures radio.Sent(ResponseToPollFrame(old(seqNumber), radio.NetworkIdBytes(), tagShortAddress, radio.DeviceAddressBytes()), Immediate)
    {
      var sq := TakeSequenceNumber();
      var ack := BuildResponse(radio, sq, tagShortAddress);
      radio.SetTransmitData(ack);
      radio.StartTransmit(Immediate);
    }

    /** The 24-byte delayed Response shared by transmitResponseToPoll_v2 and _v3. */
    method SendDelayedResponse(anchorAddress: seq<byte>)
      requires |anchorAddress| == 2
      modifies this`seqNumber, radio`txData, radio`txLog
      ensures seqNumber == NextSequence(old(seqNumber))
      ensures radio.Sent(DelayedResponseToPollFrame(old(seqNumber), radio.NetworkIdBytes(), anchorAddress, radio.DeviceAddressBytes()), Delayed)
    {
      var sq := TakeSequenceNumber();
      var ack := BuildDelayedResponse(radio, sq, anchorAddress);
      radio.SetTransmitData(ack);
      radio.StartTransmit(Delayed);
    }

    /**
     * transmitResponseToPoll_v2: schedules the Response replyDelay after the last reception and
     * returns when it will leave the antenna.
     */
    method TransmitResponseToPollV2(anchorAddress: seq<byte>, replyDelay: uint16) returns (sent: nat)
      requires |anchorAddress| == 2
      modifies this`seqNumber, radio`txData, radio`txLog, radio`delayedTrx
      ensures radio.delayedTrx == WriteValueToBytes(Scheduled(radio.rxTimestamp, replyDelay), timestampLength)
      ensures sent == SentAt(radio.rxTimestamp, replyDelay)
      ensures seqNumber == NextSequence(old(seqNumber))
      ensures radio.Sent(DelayedResponseToPollFrame(old(seqNumber), radio.NetworkIdBytes(), anchorAddress, radio.DeviceAddressBytes()), Delayed)
    {
      var time := ScheduleDelayed(radio.rxTimestamp, replyDelay);
      sent := AddUint64(time, radio.txAntennaDelay);
      SendDelayedResponse(anchorAddress);
    }

    /** transmitResponseToPoll_v3: as _v2, without returning the send time. */
    method TransmitResponseToPollV3(anchorAddress: seq<byte>, replyDelay: uint16)
      requires |anchorAddress| == 2
      modifies this`seqNumber, radio`txData, radio`txLog, radio`delayedTrx
      ensures radio.delayedTrx == WriteValueToBytes(Scheduled(radio.rxTimestamp, replyDelay), timestampLength)
      ensures seqNumber == NextSequence(old(seqNumber))
      ensures radio.Sent(DelayedResponseToPollFrame(old(seqNumber), radio.NetworkIdBytes(), anchorAddress, radio.DeviceAddressBytes()), Delayed)
    {
      var time := ScheduleDelayed(radio.rxTimestamp, replyDelay);
      SendDelayedResponse(anchorAddress);
    }

    /** The Final frame as the tag sends it, with the three timestamps cast to 32 bits. */
    function FinalOf(sq: byte, anchorAddress: seq<byte>, dev: seq<byte>, pollSent: nat, responseReceived: nat, finalSent: nat): seq<byte>
      requires |anchorAddress| == 2 && |dev| == 2
    {
      FinalFrame(sq, radio.NetworkIdBytes(), anchorAddress, dev,
                 WriteValueToBytes(ToUint32(pollSent), 4), WriteValueToBytes(ToUint32(responseReceived), 4),
                 WriteValueToBytes(ToUint32(finalSent), 4))
    }

    /** The 22-byte Final with its three timestamps, sent delayed. */
    method SendFinal(anchorAddress: seq<byte>, pollSent: nat, responseReceived: nat, finalSent: nat)
      requires |anchorAddress| == 2
      modifies this`seqNumber, radio`txData, radio`txLog
      ensures seqNumber == NextSequence(old(seqNumber))
      ensures radio.Sent(FinalOf(old(seqNumber), anchorAddress, radio.DeviceAddressBytes(), pollSent, responseReceived, finalSent), Delayed)
    {
      var sq := TakeSequenceNumber();
      var final := BuildFinal(radio, sq, anchorAddress, WriteValueToBytes(ToUint32(pollSent), 4),
                              WriteValueToBytes(ToUint32(responseReceived), 4), WriteValueToBytes(ToUint32(finalSent), 4));
      radio.SetTransmitData(final);
      radio.StartTransmit(Delayed);
    }

    /** transmitFinalMessage: scheduled from the system clock; the frame embeds its own send time. */
    method TransmitFinalMessage(anchorAddress: seq<byte>, replyDelay: uint16, pollSent: nat, responseReceived: nat)
      requires |anchorAddress| == 2
      modifies this`seqNumber, radio`txData, radio`txLog, radio`delayedTrx
      ensures radio.delayedTrx == WriteValueToBytes(Scheduled(radio.systemTimestamp, replyDelay), timestampLength)
      ensures seqNumber == NextSequence(old(seqNumber))
      ensures radio.Sent(FinalOf(old(seqNumber), anchorAddress, radio.DeviceAddressBytes(), pollSent, responseReceived,
                                 SentAt(radio.systemTimestamp, replyDelay)), Delayed)
    {
      var time := ScheduleDelayed(radio.systemTimestamp, replyDelay);
      var finalSent := AddUint64(time, radio.txAntennaDelay);
      SendFinal(anchorAddress, pollSent, responseReceived, finalSent);
    }

    /** The Final with the phase appended, as _v2 and _v3 send it. */
    function FinalWithPhaseOf(sq: byte, anchorAddress: seq<byte>, dev: seq<byte>, pollSent: nat, responseReceived: nat,
                              finalSent: nat, phaseMilli: nat): seq<byte>
      requires |anchorAddress| == 2 && |dev| == 2
    {
      FinalWithPhaseFrame(sq, radio.NetworkIdBytes(), anchorAddress, dev,
                          WriteValueToBytes(ToUint32(pollSent), 4), WriteValueToBytes(ToUint32(responseReceived), 4),
                          WriteValueToBytes(ToUint32(finalSent), 4), WriteValueToBytes(phaseMilli, 4))
    }

    /** The 26-byte Final: three timestamps and the phase, sent delayed. */
    method SendFinalWithPhase(anchorAddress: seq<byte>, pollSent: nat, responseReceived: nat, finalSent: nat, phaseMilli: nat)
      requires |anchorAddress| == 2
      modifies this`seqNumber, radio`txData, radio`txLog
      ensures seqNumber == NextSequence(old(seqNumber))
      ensures radio.Sent(FinalWithPhaseOf(old(seqNumber), anchorAddress, radio.DeviceAddressBytes(), pollSent, responseReceived,
                                          finalSent, phaseMilli), Delayed)
    {
      var sq := TakeSequenceNumber();
      var final := BuildFinalWithPhase(radio, sq, anchorAddress, WriteValueToBytes(ToUint32(pollSent), 4),
                                       WriteValueToBytes(ToUint32(responseReceived), 4), WriteValueToBytes(ToUint32(finalSent), 4),
                                       WriteValueToBytes(phaseMilli, 4));
      radio.SetTransmitData(final);
      radio.StartTransmit(Delayed);
    }

    /** transmitFinalMessage_v2: scheduled from the last reception. */
    method TransmitFinalMessageV2(anchorAddress: seq<byte>, replyDelay: uint16, pollSent: nat, responseReceived: nat, phaseMilli: nat)
      requires |anchorAddress| == 2
      modifies this`seqNumber, radio`txData, radio`txLog, radio`delayedTrx
      ensures radio.delayedTrx == WriteValueToBytes(Scheduled(radio.rxTimestamp, replyDelay), timestampLength)
      ensures seqNumber == NextSequence(old(seqNumber))
      ensures radio.Sent(FinalWithPhaseOf(old(seqNumber), anchorAddress, radio.DeviceAddressBytes(), pollSent, responseReceived,
                                          SentAt(radio.rxTimestamp, replyDelay), phaseMilli), Delayed)
    {
      var time := ScheduleDelayed(radio.rxTimestamp, replyDelay);
      var finalSent := AddUint64(time, radio.txAntennaDelay);
      SendFinalWithPhase(anchorAddress, pollSent, responseReceived, finalSent, phaseMilli);
    }

    /** transmitFinalMessage_v3: scheduled from the system clock. */
    method TransmitFinalMessageV3(anchorAddress: seq<byte>, replyDelay: uint16, pollSent: nat, responseReceived: nat, phaseMilli: nat)
      requires |anchorAddress| == 2
      modifies this`seqNumber, radio`txData, radio`txLog, radio`delayedTrx
      ensures radio.delayedTrx == WriteValueToBytes(Scheduled(radio.systemTimestamp, replyDelay), timestampLength)
      ensures seqNumber == NextSequence(old(seqNumber))
      ensures radio.Sent(FinalWithPhaseOf(old(seqNumber), anchorAddress, radio.DeviceAddressBytes(), pollSent, responseReceived,
                                          SentAt(radio.systemTimestamp, replyDelay), phaseMilli), Delayed)
    {
      var time := ScheduleDelayed(radio.systemTimestamp, replyDelay);
      var finalSent := AddUint64(time, radio.txAntennaDelay);
      SendFinalWithPhase(anchorAddress, pollSent, responseReceived, finalSent, phaseMilli);
    }

    /** The 24-byte Post-Final, sent delayed. */
    method SendPostFinal(anchorAddress: seq<byte>)
      requires |anchorAddress| == 2
      modifies this`seqNumber, radio`txData, radio`txLog
      ensures seqNumber == NextSequence(old(seqNumber))
      ensures radio.Sent(PostFinalFrame(old(seqNumber), radio.NetworkIdBytes(), anchorAddress, radio.DeviceAddressBytes()), Delayed)
    {
      var sq := TakeSequenceNumber();
      var post := BuildPostFinal(radio, sq, anchorAddress);
      radio.SetTransmitData(post);
      radio.StartTransmit(Delayed);
    }

    /** transmitPostFinalMessage: scheduled from the last transmission. */
    method TransmitPostFinalMessage(anchorAddress: seq<byte>, replyDelay: uint16)
      requires |anchorAddress| == 2
      modifies this`seqNumber, radio`txData, radio`txLog, radio`delayedTrx
      ensures radio.delayedTrx == WriteValueToBytes(Scheduled(radio.txTimestamp, replyDelay), timestampLength)
      ensures seqNumber == NextSequence(old(seqNumber))
      ensures radio.Sent(PostFinalFrame(old(seqNumber), radio.NetworkIdBytes(), anchorAddress, radio.DeviceAddressBytes()), Delayed)
    {
      var time := ScheduleDelayed(radio.txTimestamp, replyDelay);
      SendPostFinal(anchorAddress);
    }

    /** transmitPostFinalMessage_v2: scheduled from the system clock. */
    method TransmitPostFinalMessageV2(anchorAddress: seq<byte>, replyDelay: uint16)
      requires |anchorAddress| == 2
      modifies this`seqNumber, radio`txData, radio`txLog, radio`delayedTrx
      ensures radio.delayedTrx == WriteValueToBytes(Scheduled(radio.systemTimestamp, replyDelay), timestampLength)
      ensures seqNumber == NextSequence(old(seqNumber))
      ensures radio.Sent(PostFinalFrame(old(seqNumber), radio.NetworkIdBytes(), anchorAddress, radio.DeviceAddressBytes()), Delayed)
    {
      var time := ScheduleDelayed(radio.systemTimestamp, replyDelay);
      SendPostFinal(anchorAddress);
    }

    /** transmitRangingConfirm. */
    method TransmitRangingConfirm(tagShortAddress: seq<byte>, nextAnchor: seq<byte>)
      requires |tagShortAddress| == 2 && |nextAnchor| == 2
      modifies this`seqNumber, radio`txData, radio`txLog
      ensures seqNumber == NextSequence(old(seqNumber))
      ensures radio.Sent(RangingConfirmFrame(old(seqNumber), radio.NetworkIdBytes(), tagShortAddress, radio.DeviceAddressBytes(), nextAnchor), Immediate)
    {
      var sq := TakeSequenceNumber();
      var confirm := BuildConfirm(radio, sq, tagShortAddress, nextAnchor);
      radio.SetTransmitData(confirm);
      radio.StartTransmit(Immediate);
    }

    /** transmitRangingConfirm_v1: the distance in millimetres at 13..14. */
    method TransmitRangingConfirmV1(tagShortAddress: seq<byte>, distance: real)
      requires |tagShortAddress| == 2
      modifies this`seqNumber, radio`txData, radio`txLog
      ensures seqNumber == NextSequence(old(seqNumber))
      ensures radio.Sent(RangingConfirmDistanceFrame(old(seqNumber), radio.NetworkIdBytes(), tagShortAddress, radio.DeviceAddressBytes(),
                                                     WriteValueToBytes(millimetres(distance), 2)), Immediate)
    {
      var sq := TakeSequenceNumber();
      var confirm := BuildDistanceConfirm(radio, sq, tagShortAddress, WriteValueToBytes(millimetres(distance), 2));
      radio.SetTransmitData(confirm);
      radio.StartTransmit(Immediate);
    }

    /** transmitRangingConfirm_v2: the next anchor at 11..12 and the distance at 13..14. */
    method TransmitRangingConfirmV2(tagShortAddress: seq<byte>, nextAnchor: seq<byte>, distance: real)
      requires |tagShortAddress| == 2 && |nextAnchor| == 2
      modifies this`seqNumber, radio`txData, radio`txLog
      ensures seqNumber == NextSequence(old(seqNumber))
      ensures radio.Sent(RangingConfirmNextDistanceFrame(old(seqNumber), radio.NetworkIdBytes(), tagShortAddress, radio.DeviceAddressBytes(),
                                                         nextAnchor, WriteValueToBytes(millimetres(distance), 2)), Immediate)
    {
      var sq := TakeSequenceNumber();
      var confirm := BuildConfirmNextDistance(radio, sq, tagShortAddress, nextAnchor, WriteValueToBytes(millimetres(distance), 2));
      radio.SetTransmitData(confirm);
      radio.StartTransmit(Immediate);
    }

    /**
     * transmitRangingConfirm_v3: sent delayed, 3000 us after the system clock, with no antenna
     * delay added. The frame is the 17-byte initialiser as written, whose two stray zero bytes
     * before the function code make every tag reject it (Frames.PaddedConfirmRejected).
     */
    method TransmitRangingConfirmV3(tagShortAddress: seq<byte>, distance: real)
      requires |tagShortAddress| == 2
      modifies this`seqNumber, radio`txData, radio`txLog, radio`delayedTrx
      ensures radio.delayedTrx == WriteValueToBytes(Scheduled(radio.systemTimestamp, 3000), timestampLength)
      ensures seqNumber == NextSequence(old(seqNumber))
      ensures radio.Sent(RangingConfirmPaddedFrame(old(seqNumber), radio.NetworkIdBytes(), tagShortAddress, radio.DeviceAddressBytes(),
                                                   WriteValueToBytes(millimetres(distance), 2)), Delayed)
    {
      var time := ScheduleDelayed(radio.systemTimestamp, 3000);
      var sq := TakeSequenceNumber();
      var confirm := BuildPaddedConfirm(radio, sq, tagShortAddress, WriteValueToBytes(millimetres(distance), 2));
      radio.SetTransmitData(confirm);
      radio.StartTransmit(Delayed);
    }

    /**
     * transmitRangingConfirm_v3 with the initialiser corrected to the _v1 layout, which the tags
     * accept (Frames.DistanceConfirmAccepted); same 3000 us delayed schedule.
     */
    method TransmitRangingConfirmV3Corrected(tagShortAddress: seq<byte>, distance: real)
      requires |tagShortAddress| == 2
      modifies this`seqNumber, radio`txData, radio`txLog, radio`delayedTrx
      ensures radio.delayedTrx == WriteValueToBytes(Scheduled(radio.systemTimestamp, 3000), timestampLength)
      ensures seqNumber == NextSequence(old(seqNumber))
      ensures radio.Sent(RangingConfirmDistanceFrame(old(seqNumber), radio.NetworkIdBytes(), tagShortAddress, radio.DeviceAddressBytes(),
                                                     WriteValueToBytes(millimetres(distance), 2)), Delayed)
    {
      var time := ScheduleDelayed(radio.systemTimestamp, 3000);
      var sq := TakeSequenceNumber();
      var confirm := BuildDistanceConfirm(radio, sq, tagShortAddress, WriteValueToBytes(millimetres(distance), 2));
      radio.SetTransmitData(confirm);
      radio.StartTransmit(Delayed);
    }

    /** transmitActivityFinished: the encoded blink rate at 11..12. */
    method TransmitActivityFinished(tagShortAddress: seq<byte>, blinkRate: seq<byte>)
      requires |tagShortAddress| == 2 && |blinkRate| == 2
      modifies this`seqNumber, radio`txData, radio`txLog
      ensures seqNumber == NextSequence(old(seqNumber))
      ensures radio.Sent(ActivityFinishedFrame(old(seqNumber), radio.NetworkIdBytes(), tagShortAddress, radio.DeviceAddressBytes(), blinkRate), Immediate)
    {
      var sq := TakeSequenceNumber();
      var finished := BuildFinished(radio, sq, tagShortAddress, blinkRate);
      radio.SetTransmitData(finished);
      radio.StartTransmit(Immediate);
    }

    /** transmitActivityFinished_v2: as transmitActivityFinished, with the distance at 13..14. */
    method TransmitActivityFinishedV2(tagShortAddress: seq<byte>, blinkRate: seq<byte>, distance: real)
      requires |tagShortAddress| == 2 && |blinkRate| == 2
      modifies this`seqNumber, radio`txData, radio`txLog
      ensures seqNumber == NextSequence(old(seqNumber))
      ensures radio.Sent(ActivityFinishedDistanceFrame(old(seqNumber), radio.NetworkIdBytes(), tagShortAddress, radio.DeviceAddressBytes(),
                                                       blinkRate, WriteValueToBytes(millimetres(distance), 2)), Immediate)
    {
      var sq := TakeSequenceNumber();
      var finished := BuildFinishedDistance(radio, sq, tagShortAddress, blinkRate, WriteValueToBytes(millimetres(distance), 2));
      radio.SetTransmitData(finished);
      radio.StartTransmit(Immediate);
    }

    /* ---------- Waiting and receiving ---------- */

    /** waitForTransmission. */
    method WaitForTransmission()
      modifies radio`txTimes, radio`txTimestamp
      ensures radio.txTimestamp == NextTxTime(old(radio.txTimes), old(radio.txTimestamp))
      ensures radio.txTimes == if old(radio.txTimes) == [] then [] else old(radio.txTimes)[1..]
    {
      radio.CompleteTransmit();
    }

    /** receiveFrame: an immediate reception. */
    method ReceiveFrame() returns (received: bool)
      modifies radio`incoming, radio`rxData, radio`rxTimestamp, radio`rxLog
      ensures radio.Received(Immediate, received)
    {
      received := radio.StartReceive(Immediate);
    }

    /** receiveFrame_v2: a delayed reception, timeDelay after the last transmission. */
    method ReceiveFrameV2(timeDelay: nat) returns (received: bool)
      modifies radio`incoming, radio`rxData, radio`rxTimestamp, radio`rxLog, radio`delayedTrx
      ensures radio.delayedTrx == WriteValueToBytes(Scheduled(radio.txTimestamp, timeDelay), timestampLength)
      ensures radio.Received(Delayed, received)
    {
      var time := ScheduleDelayed(radio.txTimestamp, timeDelay);
      received := radio.StartReceive(Delayed);
    }

    /** receiveFrame_v3: a delayed reception, timeDelay after the last reception. */
    method ReceiveFrameV3(timeDelay: nat) returns (received: bool)
      modifies radio`incoming, radio`rxData, radio`rxTimestamp, radio`rxLog, radio`delayedTrx
      ensures radio.delayedTrx == WriteValueToBytes(Scheduled(old(radio.rxTimestamp), timeDelay), timestampLength)
      ensures radio.Received(Delayed, received)
    {
      var time := ScheduleDelayed(radio.rxTimestamp, timeDelay);
      received := radio.StartReceive(Delayed);
    }

    /** receiveFrame2: a delayed reception, 2000 us after the system clock. */
    method ReceiveFrame2() returns (received: bool)
      modifies radio`incoming, radio`rxData, radio`rxTimestamp, radio`rxLog, radio`delayedTrx
      ensures radio.delayedTrx == WriteValueToBytes(Scheduled(radio.systemTimestamp, 2000), timestampLength)
      ensures radio.Received(Delayed, received)
    {
      var time := ScheduleDelayed(radio.systemTimestamp, 2000);
      received := radio.StartReceive(Delayed);
    }

    /** waitForNextRangingStep: complete the pending transmission, then receive. */
    method WaitForNextRangingStep() returns (received: bool)
      modifies radio`txTimes, radio`txTimestamp, radio`incoming, radio`rxData, radio`rxTimestamp, radio`rxLog
      ensures radio.txTimestamp == NextTxTime(old(radio.txTimes), old(radio.txTimestamp))
      ensures radio.txTimes == if old(radio.txTimes) == [] then [] else old(radio.txTimes)[1..]
      ensures radio.Received(Immediate, received)
    {
      WaitForTransmission();
      received := ReceiveFrame();
    }

    /** waitForNextRangingStep_v2: complete the pending transmission, then a delayed reception. */
    method WaitForNextRangingStepV2(timeDelay: nat) returns (received: bool)
      modifies radio`txTimes, radio`txTimestamp, radio`incoming, radio`rxData, radio`rxTimestamp, radio`rxLog, radio`delayedTrx
      ensures radio.txTimestamp == NextTxTime(old(radio.txTimes), old(radio.txTimestamp))
      ensures radio.txTimes == if old(radio.txTimes) == [] then [] else old(radio.txTimes)[1..]
      ensures radio.delayedTrx == WriteValueToBytes(Scheduled(radio.txTimestamp, timeDelay), timestampLength)
      ensures radio.Received(Delayed, received)
    {
      WaitForTransmission();
      received := ReceiveFrameV2(timeDelay);
    }

    /** waitForNextRangingStep2: complete the pending transmission, then receiveFrame2. */
    method WaitForNextRangingStep2() returns (received: bool)
      modifies radio`txTimes, radio`txTimestamp, radio`incoming, radio`rxData, radio`rxTimestamp, radio`rxLog, radio`delayedTrx
      ensures radio.txTimestamp == NextTxTime(old(radio.txTimes), old(radio.txTimestamp))
      ensures radio.txTimes == if old(radio.txTimes) == [] then [] else old(radio.txTimes)[1..]
      ensures radio.delayedTrx == WriteValueToBytes(Scheduled(radio.systemTimestamp, 2000), timestampLength)
      ensures radio.Received(Delayed, received)
    {
      WaitForTransmission();
      received := ReceiveFrame2();
    }

    /* ---------- Session logs ---------- */

    /** What one poll/final exchange transmits: the Poll, then the Final once a Response is accepted. */
    function PollExchange(sq: byte, anchor: uint16, dev: seq<byte>, events: seq<Event>, pollSent: nat, replyDelay: uint16): (log: seq<Transmission>)
      requires |dev| == 2
      ensures |log| == if ResponseArrives(events) then 2 else 1
    {
      [Transmission(PollFrame(sq, radio.NetworkIdBytes(), WriteValueToBytes(anchor, 2), dev), Immediate)]
      + if ResponseArrives(events) then
          [Transmission(FinalOf(NextSequence(sq), events[0].data[7..9], dev, pollSent, events[0].rxTime,
                                SentAt(radio.systemTimestamp, replyDelay)), Delayed)]
        else []
    }

    /** Of one exchange's frames only the first is a Poll, and it is addressed to the anchor. */
    lemma ExchangePollsAnchor(sq: byte, anchor: uint16, dev: seq<byte>, events: seq<Event>, pollSent: nat, replyDelay: uint16)
      requires |dev| == 2
      ensures PollDestinations(PollExchange(sq, anchor, dev, events, pollSent, replyDelay)) == [anchor]
    {
      var log := PollExchange(sq, anchor, dev, events, pollSent, replyDelay);
      var poll := PollFrame(sq, radio.NetworkIdBytes(), WriteValueToBytes(anchor, 2), dev);
      assert poll[5..7] == WriteValueToBytes(anchor, 2);
      Uint16RoundTrip(anchor);
      assert PollDestinations(log[1..]) == [];
    }

    /** What an anchor transmits before its last frame: the Response once an accepted Poll is in. */
    function ResponseLog(st: AcceptStage, sq: byte, dev: seq<byte>): (log: seq<Transmission>)
      requires |dev| == 2 && (!st.NoPoll? && !st.BadPoll? ==> |st.poll| > 9)
      ensures |log| == if st.NoPoll? || st.BadPoll? then 0 else 1
    {
      if st.NoPoll? || st.BadPoll? then []
      else [Transmission(ResponseToPollFrame(sq, radio.NetworkIdBytes(), st.poll[7..9], dev), Immediate)]
    }

    /** The range the anchor computes from a received Final, before the non-positive guard. */
    function MeasuredRange(st: AcceptStage, responseSent: nat): real
      requires st.FinalReceived?
    {
      computeRange(RangeInputsOf(st.final, timestampLength, st.pollRx, responseSent, st.finalRx))
    }

    /* ---------- Tag ---------- */

    /** tagRangeRequest: Blink, then wait for a Ranging Initiation and take the short address it offers. */
    method TagRangeRequest() returns (r: RangeRequestResult)
      modifies this`seqNumber, radio
      ensures r == RangeRequest(old(radio.incoming))
      ensures radio.deviceAddress == AssignedAddress(old(radio.incoming), old(radio.deviceAddress))
      ensures radio.incoming == Rest(old(radio.incoming))
      ensures radio.txLog == old(radio.txLog) + [Transmission(BlinkFrame(old(seqNumber), radio.eui), Immediate)]
      ensures seqNumber == NextSequence(old(seqNumber))
    {
      TransmitTwrShortBlink();
      var received := WaitForNextRangingStep();
      if !received {
        return RangeRequestResult(false, 0);
      }
      var init := radio.rxData;
      if !(|init| > 17 && init[15] == RANGING_INITIATION) {
        return RangeRequestResult(false, 0);
      }
      radio.SetDeviceAddress(Address(init, 16));
      r := RangeRequestResult(true, Address(init, 13));
    }

    /**
     * tagFinishRange: Poll, Response, Final, then the anchor's Confirm or Finished. The result
     * starts unassigned, and an activity-control frame that is neither leaves it so.
     */
    method TagFinishRange(anchor: uint16, replyDelayUs: uint16) returns (r: Value<RangeResult>)
      modifies this`seqNumber, radio
      ensures r == FinishRange(old(radio.incoming))
      ensures radio.incoming == FinishRangeRest(old(radio.incoming))
      ensures radio.deviceAddress == old(radio.deviceAddress)
      ensures radio.txLog == old(radio.txLog) + PollExchange(old(seqNumber), anchor, old(radio.DeviceAddressBytes()), old(radio.incoming),
                                                             NextTxTime(old(radio.txTimes), old(radio.txTimestamp)), replyDelayUs)
      ensures seqNumber == SequenceAfter(old(seqNumber), |radio.txLog| - |old(radio.txLog)|)
      ensures old(radio.txLog) <= radio.txLog && PollDestinations(radio.txLog[|old(radio.txLog)|..]) == [anchor]
    {
      r := Indeterminate;
      ghost var exchange := PollExchange(seqNumber, anchor, radio.DeviceAddressBytes(), radio.incoming,
                                         NextTxTime(radio.txTimes, radio.txTimestamp), replyDelayUs);
      ExchangePollsAnchor(seqNumber, anchor, radio.DeviceAddressBytes(), radio.incoming,
                          NextTxTime(radio.txTimes, radio.txTimestamp), replyDelayUs);
      assert SequenceAfter(seqNumber, 1) == NextSequence(seqNumber);
      assert SequenceAfter(seqNumber, 2) == NextSequence(NextSequence(seqNumber));
      TransmitPoll(WriteValueToBytes(anchor, 2));
      var received := WaitForNextRangingStep();
      if !received {
        r := Known(RANGE_FAILED);
      } else {
        var cont := radio.rxData;
        if |cont| > 10 && cont[9] == ACTIVITY_CONTROL && cont[10] == RANGING_CONTINUE {
          TransmitFinalMessage(cont[7..9], replyDelayUs, radio.txTimestamp, radio.rxTimestamp);
          assert radio.txLog == old(radio.txLog) + exchange;
          received := WaitForNextRangingStep();
          if !received {
            r := Known(RANGE_FAILED);
          } else {
            var act := radio.rxData;
            if |act| > 10 && act[9] == ACTIVITY_CONTROL {
              if |act| > 12 && act[10] == RANGING_CONFIRM {
                r := Known(RangeResult(true, true, Address(act, 11), 0));
              } else if |act| > 12 && act[10] == ACTIVITY_FINISHED {
                r := Known(RangeResult(true, false, 0, CalculateNewBlinkRate(act)));
              }
            } else {
              r := Known(RANGE_FAILED);
            }
          }
        } else {
          r := Known(RANGE_FAILED);
        }
      }
    }

    /** tagFinishRange_v2: as tagFinishRange, with the distance the anchor reports at 13..14. */
    method TagFinishRangeV2(anchor: uint16, replyDelayUs: uint16) returns (r: Value<RangeResultV2>)
      modifies this`seqNumber, radio
      ensures r == FinishRangeV2(old(radio.incoming))
      ensures radio.incoming == FinishRangeRest(old(radio.incoming))
      ensures radio.deviceAddress == old(radio.deviceAddress)
      ensures radio.txLog == old(radio.txLog) + PollExchange(old(seqNumber), anchor, old(radio.DeviceAddressBytes()), old(radio.incoming),
                                                             NextTxTime(old(radio.txTimes), old(radio.txTimestamp)), replyDelayUs)
      ensures seqNumber == SequenceAfter(old(seqNumber), |radio.txLog| - |old(radio.txLog)|)
      ensures old(radio.txLog) <= radio.txLog && PollDestinations(radio.txLog[|old(radio.txLog)|..]) == [anchor]
    {
      r := Indeterminate;
      ghost var exchange := PollExchange(seqNumber, anchor, radio.DeviceAddressBytes(), radio.incoming,
                                         NextTxTime(radio.txTimes, radio.txTimestamp), replyDelayUs);
      ExchangePollsAnchor(seqNumber, anchor, radio.DeviceAddressBytes(), radio.incoming,
                          NextTxTime(radio.txTimes, radio.txTimestamp), replyDelayUs);
      assert SequenceAfter(seqNumber, 1) == NextSequence(seqNumber);
      assert SequenceAfter(seqNumber, 2) == NextSequence(NextSequence(seqNumber));
      TransmitPoll(WriteValueToBytes(anchor, 2));
      var received := WaitForNextRangingStep();
      if !received {
        r := Known(RANGE_FAILED_V2);
      } else {
        var cont := radio.rxData;
        if |cont| > 10 && cont[9] == ACTIVITY_CONTROL && cont[10] == RANGING_CONTINUE {
          TransmitFinalMessage(cont[7..9], replyDelayUs, radio.txTimestamp, radio.rxTimestamp);
          assert radio.txLog == old(radio.txLog) + exchange;
          received := WaitForNextRangingStep();
          if !received {
            r := Known(RANGE_FAILED_V2);
          } else {
            var act := radio.rxData;
            if |act| > 10 && act[9] == ACTIVITY_CONTROL {
              if |act| > 12 && act[10] == RANGING_CONFIRM {
                r := Known(RangeResultV2(true, true, Address(act, 11), 0, Field(act, 13, 2)));
              } else if |act| > 12 && act[10] == ACTIVITY_FINISHED {
                r := Known(RangeResultV2(true, false, 0, CalculateNewBlinkRate(act), Field(act, 13, 2)));
              }
            } else {
              r := Known(RANGE_FAILED_V2);
            }
          }
        } else {
          r := Known(RANGE_FAILED_V2);
        }
      }
    }

    /**
     * tagRangeInfrastructure: one exchange per anchor, following next_anchor while each
     * succeeds with next set. An undetermined hop ends the model's run undetermined.
     */
    method TagRangeInfrastructure(targetAnchor: uint16, finalMessageDelay: uint16) returns (r: Value<RangeInfrastructureResult>)
      modifies this`seqNumber, radio
      ensures r == Infrastructure(old(radio.incoming))
      ensures radio.deviceAddress == old(radio.deviceAddress)
      ensures old(radio.txLog) <= radio.txLog
      ensures PollDestinations(radio.txLog[|old(radio.txLog)|..]) == PolledAnchors(targetAnchor, old(radio.incoming))
    {
      r := Indeterminate;
      ghost var events := radio.incoming;
      var result := TagFinishRange(targetAnchor, finalMessageDelay);
      ghost var polled := [targetAnchor];
      if result.Indeterminate? {
        return Indeterminate;
      }
      var keepGoing := true;
      if !result.value.success {
        keepGoing := false;
        r := Known(INFRASTRUCTURE_FAILED);
      } else {
        while result.value.success && result.value.next
          invariant result.Known? && result.value.success && keepGoing && r == Indeterminate
          invariant (if result.value.next then Infrastructure(radio.incoming) else Terminal(result.value)) == Infrastructure(old(radio.incoming))
          invariant radio.deviceAddress == old(radio.deviceAddress)
          invariant old(radio.txLog) <= radio.txLog && PollDestinations(radio.txLog[|old(radio.txLog)|..]) == polled
          invariant polled + (if result.value.next then PolledAnchors(result.value.nextAnchor, radio.incoming) else [])
                    == PolledAnchors(targetAnchor, old(radio.incoming))
          decreases |radio.incoming|
        {
          ghost var anchor, log := result.value.nextAnchor, radio.txLog;
          events := radio.incoming;
          result := TagFinishRange(result.value.nextAnchor, finalMessageDelay);
          ExtendPolls(old(radio.txLog), log, radio.txLog, anchor);
          PolledStep(polled, anchor, events, PolledAnchors(targetAnchor, old(radio.incoming)));
          polled := polled + [anchor];
          if result.Indeterminate? {
            return Indeterminate;
          }
          if !result.value.success {
            keepGoing := false;
            r := Known(INFRASTRUCTURE_FAILED);
            break;
          }
        }
      }
      if keepGoing {
        if result.value.success && result.value.newBlinkRate != 0 {
          r := Known(RangeInfrastructureResult(true, result.value.newBlinkRate % 0x1_0000));
        } else if !result.value.success {
          r := Known(INFRASTRUCTURE_FAILED);
        }
      }
    }

    /**
     * tagRangeInfrastructure_v2: as tagRangeInfrastructure, recording main_dist from the first
     * hop and b_dist or c_dist (by next_anchor == 3) from each later one.
     */
    method TagRangeInfrastructureV2(targetAnchor: uint16, finalMessageDelay: uint16) returns (r: Value<RangeInfrastructureResultV2>)
      modifies this`seqNumber, radio
      ensures r == InfrastructureV2(old(radio.incoming))
      ensures radio.deviceAddress == old(radio.deviceAddress)
      ensures old(radio.txLog) <= radio.txLog
      ensures PollDestinations(radio.txLog[|old(radio.txLog)|..]) == PolledAnchors(targetAnchor, old(radio.incoming))
    {
      r := Indeterminate;
      var mainDist, bDist, cDist: Value<nat> := Indeterminate, Indeterminate, Indeterminate;
      ghost var events := radio.incoming;
      var result := TagFinishRangeV2(targetAnchor, finalMessageDelay);
      ghost var polled := [targetAnchor];
      FinishRangeV2Extends(events);
      if result.Indeterminate? {
        return Indeterminate;
      }
      var keepGoing := true;
      if result.value.success {
        mainDist := result.value.distanceMm;
      }
      if !result.value.success {
        keepGoing := false;
        r := Known(INFRASTRUCTURE_FAILED_V2);
      } else {
        while result.value.success && result.value.next
          invariant result.Known? && result.value.success && keepGoing && r == Indeterminate
          invariant (if result.value.next then LaterHopsV2(radio.incoming, mainDist, bDist, cDist)
                     else TerminalV2(result.value, mainDist, bDist, cDist)) == InfrastructureV2(old(radio.incoming))
          invariant radio.deviceAddress == old(radio.deviceAddress)
          invariant old(radio.txLog) <= radio.txLog && PollDestinations(radio.txLog[|old(radio.txLog)|..]) == polled
          invariant polled + (if result.value.next then PolledAnchors(result.value.nextAnchor, radio.incoming) else [])
                    == PolledAnchors(targetAnchor, old(radio.incoming))
          decreases |radio.incoming|
        {
          ghost var anchor, log := result.value.nextAnchor, radio.txLog;
          events := radio.incoming;
          result := TagFinishRangeV2(result.value.nextAnchor, finalMessageDelay);
          ExtendPolls(old(radio.txLog), log, radio.txLog, anchor);
          PolledStep(polled, anchor, events, PolledAnchors(targetAnchor, old(radio.incoming)));
          polled := polled + [anchor];
          FinishRangeV2Extends(events);
          if result.Indeterminate? {
            return Indeterminate;
          }
          if !result.value.success {
            keepGoing := false;
            r := Known(INFRASTRUCTURE_FAILED_V2);
            break;
          } else {
            if result.value.nextAnchor == 3 {
              bDist := result.value.distanceMm;
            } else {
              cDist := result.value.distanceMm;
            }
          }
        }
        if keepGoing {
          if result.value.success && result.value.newBlinkRate != 0 {
            r := Known(RangeInfrastructureResultV2(true, result.value.newBlinkRate % 0x1_0000, mainDist, bDist, cDist));
          } else if !result.value.success {
            r := Known(INFRASTRUCTURE_FAILED_V2);
          }
        }
      }
    }

    /** tagTwrLocalize: a range request, then infrastructure ranging from the anchor it names. */
    method TagTwrLocalize(finalMessageDelay: uint16) returns (r: Value<RangeInfrastructureResult>)
      modifies this`seqNumber, radio
      ensures r == Localize(old(radio.incoming))
      ensures radio.deviceAddress == AssignedAddress(old(radio.incoming), old(radio.deviceAddress))
    {
      var request := TagRangeRequest();
      if request.success {
        var result := TagRangeInfrastructure(request.targetAnchor, finalMessageDelay);
        if result.Indeterminate? {
          return Indeterminate;
        }
        if result.value.success {
          return result;
        }
      }
      return Known(INFRASTRUCTURE_FAILED);
    }

    /** tagTwrLocalize_v2. */
    method TagTwrLocalizeV2(finalMessageDelay: uint16) returns (r: Value<RangeInfrastructureResultV2>)
      modifies this`seqNumber, radio
      ensures r == LocalizeV2(old(radio.incoming))
      ensures radio.deviceAddress == AssignedAddress(old(radio.incoming), old(radio.deviceAddress))
    {
      var request := TagRangeRequest();
      if request.success {
        var result := TagRangeInfrastructureV2(request.targetAnchor, finalMessageDelay);
        if result.Indeterminate? {
          return Indeterminate;
        }
        if result.value.success {
          return result;
        }
      }
      return Known(INFRASTRUCTURE_FAILED_V2);
    }

    /**
     * Tag_Distance_Request: one exchange whose Confirm carries the distance; more than 65 m
     * reads as 0, and a Finished leaves the result unassigned.
     */
    method TagDistanceRequest(anchorAddress: uint16, finalMessageDelay: uint16) returns (r: Value<DistanceResult>)
      modifies this`seqNumber, radio
      ensures r == DistanceRequest(old(radio.incoming))
      ensures radio.incoming == FinishRangeRest(old(radio.incoming))
      ensures radio.deviceAddress == old(radio.deviceAddress)
      ensures radio.txLog == old(radio.txLog) + PollExchange(old(seqNumber), anchorAddress, old(radio.DeviceAddressBytes()), old(radio.incoming),
                                                             NextTxTime(old(radio.txTimes), old(radio.txTimestamp)), finalMessageDelay)
      ensures seqNumber == SequenceAfter(old(seqNumber), |radio.txLog| - |old(radio.txLog)|)
    {
      r := Indeterminate;
      ghost var exchange := PollExchange(seqNumber, anchorAddress, radio.DeviceAddressBytes(), radio.incoming,
                                         NextTxTime(radio.txTimes, radio.txTimestamp), finalMessageDelay);
      assert SequenceAfter(seqNumber, 1) == NextSequence(seqNumber);
      assert SequenceAfter(seqNumber, 2) == NextSequence(NextSequence(seqNumber));
      TransmitPoll(WriteValueToBytes(anchorAddress, 2));
      var received := WaitForNextRangingStep();
      if !received {
        r := Known(DISTANCE_FAILED);
      } else {
        var cont := radio.rxData;
        if |cont| > 10 && cont[9] == ACTIVITY_CONTROL && cont[10] == RANGING_CONTINUE {
          TransmitFinalMessage(cont[7..9], finalMessageDelay, radio.txTimestamp, radio.rxTimestamp);
          assert radio.txLog == old(radio.txLog) + exchange;
          WaitForTransmission();
          received := ReceiveFrame();
          if !received {
            r := Known(DISTANCE_FAILED);
          } else {
            var act := radio.rxData;
            if |act| > 10 && act[9] == ACTIVITY_CONTROL {
              if |act| > 12 && act[10] == RANGING_CONFIRM {
                var mm := Field(act, 13, 2);
                if mm.Known? && mm.value > 65000 {
                  mm := Known(0);
                }
                r := Known(DistanceResult(true, mm));
              }
            } else {
              r := Known(DISTANCE_FAILED);
            }
            assert r == DistanceVerdict(act);
          }
        } else {
          r := Known(DISTANCE_FAILED);
        }
      }
    }

    /* ---------- Anchor ---------- */

    /**
     * The part the three anchor routines share: receive a Poll, answer with a Response, wait for
     * it to leave (its tx timestamp is timeResponseToPoll), and receive the Final.
     */
    method ReceivePollAndFinal() returns (st: AcceptStage, timeResponseToPoll: nat)
      modifies this`seqNumber, radio
      ensures st == Accept(old(radio.incoming))
      ensures radio.incoming == if st.NoPoll? || st.BadPoll? then Rest(old(radio.incoming)) else Rest(Rest(old(radio.incoming)))
      ensures radio.deviceAddress == old(radio.deviceAddress)
      ensures radio.txLog == old(radio.txLog) + ResponseLog(st, old(seqNumber), old(radio.DeviceAddressBytes()))
      ensures seqNumber == SequenceAfter(old(seqNumber), |radio.txLog| - |old(radio.txLog)|)
      ensures !st.NoPoll? && !st.BadPoll? ==> timeResponseToPoll == NextTxTime(old(radio.txTimes), old(radio.txTimestamp))
    {
      assert SequenceAfter(seqNumber, 1) == NextSequence(seqNumber);
      var received := ReceiveFrame();
      if !received {
        return NoPoll, 0;
      }
      var poll := radio.rxData;
      if !(|poll| > 9 && poll[9] == RANGING_TAG_POLL) {
        return BadPoll, 0;
      }
      var timePollReceived := radio.rxTimestamp;
      TransmitResponseToPoll(poll[7..9]);
      WaitForTransmission();
      timeResponseToPoll := radio.txTimestamp;
      received := ReceiveFrame();
      if !received {
        return NoFinal(poll), timeResponseToPoll;
      }
      var final := radio.rxData;
      if !(|final| > 18 && final[9] == RANGING_TAG_FINAL_RESPONSE_EMBEDDED) {
        return BadFinal(poll), timeResponseToPoll;
      }
      st := FinalReceived(poll, timePollReceived, final, radio.rxTimestamp);
    }

    /**
     * anchorRangeAccept: answer a tag's Poll, take its Final, reply with a Confirm naming the
     * next anchor or a Finished carrying the blink rate, and return the range. A timeout fails;
     * a frame that fails a check leaves the result unassigned.
     */
    method AnchorRangeAccept(next: NextActivity, value: uint16) returns (r: Value<RangeAcceptResult>)
      modifies this`seqNumber, radio
      ensures var st := Accept(old(radio.incoming));
        && (st.NoPoll? || st.NoFinal? ==> r == Known(ACCEPT_FAILED))
        && (st.BadPoll? || st.BadFinal? ==> r == Indeterminate)
        && (st.FinalReceived? ==>
              r == Known(RangeAcceptResult(true, Clamp(MeasuredRange(st, NextTxTime(old(radio.txTimes), old(radio.txTimestamp)))))))
      ensures var st, sq, dev := Accept(old(radio.incoming)), old(seqNumber), old(radio.DeviceAddressBytes());
        && (!st.FinalReceived? ==> radio.txLog == old(radio.txLog) + ResponseLog(st, sq, dev))
        && (st.FinalReceived? ==> radio.txLog == old(radio.txLog) + ResponseLog(st, sq, dev) + [Transmission(
              if next == RangingConfirm
              then RangingConfirmFrame(NextSequence(sq), radio.NetworkIdBytes(), st.final[7..9], dev, WriteValueToBytes(value, 2))
              else ActivityFinishedFrame(NextSequence(sq), radio.NetworkIdBytes(), st.final[7..9], dev, WriteValueToBytes(value, 2)),
              Immediate)])
      ensures seqNumber == SequenceAfter(old(seqNumber), |radio.txLog| - |old(radio.txLog)|)
      ensures var st := Accept(old(radio.incoming));
        radio.incoming == if st.NoPoll? || st.BadPoll? then Rest(old(radio.incoming)) else Rest(Rest(old(radio.incoming)))
      ensures radio.deviceAddress == old(radio.deviceAddress)
      ensures r.Known? && r.value.success ==> r.value.range > 0.0
    {
      r := Indeterminate;
      assert SequenceAfter(seqNumber, 2) == NextSequence(SequenceAfter(seqNumber, 1));
      var st, timeResponseToPoll := ReceivePollAndFinal();
      if st.NoPoll? || st.NoFinal? {
        r := Known(ACCEPT_FAILED);
      } else if st.FinalReceived? {
        var finishValue := WriteValueToBytes(value, 2);
        if next == RangingConfirm {
          TransmitRangingConfirm(st.final[7..9], finishValue);
        } else {
          TransmitActivityFinished(st.final[7..9], finishValue);
        }
        WaitForTransmission();
        var range := computeRange(RangeInputsOf(st.final, timestampLength, st.pollRx, timeResponseToPoll, st.finalRx));
        if range <= 0.0 {
          range := 0.000001;
        }
        r := Known(RangeAcceptResult(true, range));
      }
    }

    /**
     * anchorRangeAccept_v2: as anchorRangeAccept, with the measured range (before the
     * non-positive guard) sent in millimetres in the Confirm or Finished.
     */
    method AnchorRangeAcceptV2(next: NextActivity, value: uint16) returns (r: Value<RangeAcceptResult>)
      modifies this`seqNumber, radio
      ensures var st := Accept(old(radio.incoming));
        && (st.NoPoll? || st.NoFinal? ==> r == Known(ACCEPT_FAILED))
        && (st.BadPoll? || st.BadFinal? ==> r == Indeterminate)
        && (st.FinalReceived? ==>
              r == Known(RangeAcceptResult(true, Clamp(MeasuredRange(st, NextTxTime(old(radio.txTimes), old(radio.txTimestamp)))))))
      ensures var st, sq, dev := Accept(old(radio.incoming)), old(seqNumber), old(radio.DeviceAddressBytes());
        && (!st.FinalReceived? ==> radio.txLog == old(radio.txLog) + ResponseLog(st, sq, dev))
        && (st.FinalReceived? ==>
              var mm := WriteValueToBytes(millimetres(MeasuredRange(st, NextTxTime(old(radio.txTimes), old(radio.txTimestamp)))), 2);
              radio.txLog == old(radio.txLog) + ResponseLog(st, sq, dev) + [Transmission(
                if next == RangingConfirm
                then RangingConfirmNextDistanceFrame(NextSequence(sq), radio.NetworkIdBytes(), st.final[7..9], dev, WriteValueToBytes(value, 2), mm)
                else ActivityFinishedDistanceFrame(NextSequence(sq), radio.NetworkIdBytes(), st.final[7..9], dev, WriteValueToBytes(value, 2), mm),
                Immediate)])
      ensures seqNumber == SequenceAfter(old(seqNumber), |radio.txLog| - |old(radio.txLog)|)
      ensures var st := Accept(old(radio.incoming));
        radio.incoming == if st.NoPoll? || st.BadPoll? then Rest(old(radio.incoming)) else Rest(Rest(old(radio.incoming)))
      ensures radio.deviceAddress == old(radio.deviceAddress)
      ensures r.Known? && r.value.success ==> r.value.range > 0.0
    {
      r := Indeterminate;
      assert SequenceAfter(seqNumber, 2) == NextSequence(SequenceAfter(seqNumber, 1));
      var st, timeResponseToPoll := ReceivePollAndFinal();
      if st.NoPoll? || st.NoFinal? {
        r := Known(ACCEPT_FAILED);
      } else if st.FinalReceived? {
        var range := computeRange(RangeInputsOf(st.final, timestampLength, st.pollRx, timeResponseToPoll, st.finalRx));
        var finishValue := WriteValueToBytes(value, 2);
        if next == RangingConfirm {
          TransmitRangingConfirmV2(st.final[7..9], finishValue, range);
        } else {
          TransmitActivityFinishedV2(st.final[7..9], finishValue, range);
        }
        WaitForTransmission();
        if range <= 0.0 {
          range := 0.000001;
        }
        r := Known(RangeAcceptResult(true, range));
      }
    }

    /**
     * Anchor_Distance_Response: as anchorRangeAccept_v2 with a Confirm whose next-anchor bytes
     * are 0x00 0x00.
     */
    method AnchorDistanceResponse() returns (r: Value<RangeAcceptResult>)
      modifies this`seqNumber, radio
      ensures var st := Accept(old(radio.incoming));
        && (st.NoPoll? || st.NoFinal? ==> r == Known(ACCEPT_FAILED))
        && (st.BadPoll? || st.BadFinal? ==> r == Indeterminate)
        && (st.FinalReceived? ==>
              r == Known(RangeAcceptResult(true, Clamp(MeasuredRange(st, NextTxTime(old(radio.txTimes), old(radio.txTimestamp)))))))
      ensures var st, sq, dev := Accept(old(radio.incoming)), old(seqNumber), old(radio.DeviceAddressBytes());
        && (!st.FinalReceived? ==> radio.txLog == old(radio.txLog) + ResponseLog(st, sq, dev))
        && (st.FinalReceived? ==>
              var mm := WriteValueToBytes(millimetres(MeasuredRange(st, NextTxTime(old(radio.txTimes), old(radio.txTimestamp)))), 2);
              radio.txLog == old(radio.txLog) + ResponseLog(st, sq, dev) + [Transmission(
                RangingConfirmNextDistanceFrame(NextSequence(sq), radio.NetworkIdBytes(), st.final[7..9], dev, [0x00, 0x00], mm), Immediate)])
      ensures seqNumber == SequenceAfter(old(seqNumber), |radio.txLog| - |old(radio.txLog)|)
      ensures var st := Accept(old(radio.incoming));
        radio.incoming == if st.NoPoll? || st.BadPoll? then Rest(old(radio.incoming)) else Rest(Rest(old(radio.incoming)))
      ensures radio.deviceAddress == old(radio.deviceAddress)
      ensures r.Known? && r.value.success ==> r.value.range > 0.0
    {
      r := Indeterminate;
      assert SequenceAfter(seqNumber, 2) == NextSequence(SequenceAfter(seqNumber, 1));
      var st, timeResponseToPoll := ReceivePollAndFinal();
      if st.NoPoll? || st.NoFinal? {
        r := Known(ACCEPT_FAILED);
      } else if st.FinalReceived? {
        var range := computeRange(RangeInputsOf(st.final, timestampLength, st.pollRx, timeResponseToPoll, st.finalRx));
        var targetAnchor := [0x00, 0x00];
        TransmitRangingConfirmV2(st.final[7..9], targetAnchor, range);
        WaitForTransmission();
        if range <= 0.0 {
          range := 0.000001;
        }
        r := Known(RangeAcceptResult(true, range));
      }
    }
  }
}
