/**
 * Frame codec. One function per byte layout a transmit* builder produces, the acceptance checks
 * the receivers apply before touching a frame, and the fixed-offset field readers.
 *
 * Addresses and ids are passed as the two bytes the builder copies (getNetworkId, memcpy,
 * getDeviceAddress all copy two bytes); timestamps and payload values as the bytes
 * writeValueToBytes produces.
 */
module Frames {
  import opened Bytes
  import opened Protocol

  /* ---------- Layouts ---------- */

  /** transmitTwrShortBlink: 12 bytes, the tag's EUI at 2..9. */
  function BlinkFrame(sq: byte, eui: seq<byte>): seq<byte>
    requires |eui| == 8
  {
    [BLINK, sq, eui[0], eui[1], eui[2], eui[3], eui[4], eui[5], eui[6], eui[7], BLINK_HEADER, TAG_LISTENING_NOW]
  }

  /** transmitRangingInitiation: 18 bytes, tag EUI at 5..12, sender at 13..14, assigned short address at 16..17. */
  function RangingInitiationFrame(sq: byte, net: seq<byte>, tagEui: seq<byte>, src: seq<byte>, tagShort: seq<byte>): seq<byte>
    requires |net| == 2 && |tagEui| == 8 && |src| == 2 && |tagShort| == 2
  {
    [DATA, SHORT_SRC_LONG_DEST, sq, net[0], net[1],
     tagEui[0], tagEui[1], tagEui[2], tagEui[3], tagEui[4], tagEui[5], tagEui[6], tagEui[7],
     src[0], src[1], RANGING_INITIATION, tagShort[0], tagShort[1]]
  }

  /** transmitPoll: 24 bytes. */
  function PollFrame(sq: byte, net: seq<byte>, dst: seq<byte>, src: seq<byte>): seq<byte>
    requires |net| == 2 && |dst| == 2 && |src| == 2
  {
    [DATA, SHORT_SRC_AND_DEST, sq, net[0], net[1], dst[0], dst[1], src[0], src[1], RANGING_TAG_POLL,
     0, 0, 0, 0, 0, 0, 0, 0, 0, 0, 0, 0, 0, 0]
  }

  /** transmitResponseToPoll: 13 bytes. */
  function ResponseToPollFrame(sq: byte, net: seq<byte>, dst: seq<byte>, src: seq<byte>): seq<byte>
    requires |net| == 2 && |dst| == 2 && |src| == 2
  {
    [DATA, SHORT_SRC_AND_DEST, sq, net[0], net[1], dst[0], dst[1], src[0], src[1],
     ACTIVITY_CONTROL, RANGING_CONTINUE, 0, 0]
  }

  /** transmitResponseToPoll_v2 and _v3 (delayed): 24 bytes. */
  function DelayedResponseToPollFrame(sq: byte, net: seq<byte>, dst: seq<byte>, src: seq<byte>): seq<byte>
    requires |net| == 2 && |dst| == 2 && |src| == 2
  {
    [DATA, SHORT_SRC_AND_DEST, sq, net[0], net[1], dst[0], dst[1], src[0], src[1],
     ACTIVITY_CONTROL, RANGING_CONTINUE, 0, 0, 0, 0, 0, 0, 0, 0, 0, 0, 0, 0, 0]
  }

  /** transmitFinalMessage: 22 bytes, the three 4-byte timestamps at 10, 14 and 18. */
  function FinalFrame(sq: byte, net: seq<byte>, dst: seq<byte>, src: seq<byte>,
                      pollSent: seq<byte>, responseReceived: seq<byte>, finalSent: seq<byte>): seq<byte>
    requires |net| == 2 && |dst| == 2 && |src| == 2
    requires |pollSent| == 4 && |responseReceived| == 4 && |finalSent| == 4
  {
    [DATA, SHORT_SRC_AND_DEST, sq, net[0], net[1], dst[0], dst[1], src[0], src[1],
     RANGING_TAG_FINAL_RESPONSE_EMBEDDED,
     pollSent[0], pollSent[1], pollSent[2], pollSent[3],
     responseReceived[0], responseReceived[1], responseReceived[2], responseReceived[3],
     finalSent[0], finalSent[1], finalSent[2], finalSent[3]]
  }

  /** transmitFinalMessage_v2 and _v3: 26 bytes, a fourth 4-byte value (the phase) at 22. */
  function FinalWithPhaseFrame(sq: byte, net: seq<byte>, dst: seq<byte>, src: seq<byte>,
                               pollSent: seq<byte>, responseReceived: seq<byte>, finalSent: seq<byte>,
                               phase: seq<byte>): seq<byte>
    requires |net| == 2 && |dst| == 2 && |src| == 2
    requires |pollSent| == 4 && |responseReceived| == 4 && |finalSent| == 4 && |phase| == 4
  {
    [DATA, SHORT_SRC_AND_DEST, sq, net[0], net[1], dst[0], dst[1], src[0], src[1],
     RANGING_TAG_FINAL_RESPONSE_EMBEDDED,
     pollSent[0], pollSent[1], pollSent[2], pollSent[3],
     responseReceived[0], responseReceived[1], responseReceived[2], responseReceived[3],
     finalSent[0], finalSent[1], finalSent[2], finalSent[3],
     phase[0], phase[1], phase[2], phase[3]]
  }

  /** transmitPostFinalMessage and _v2: 24 bytes. */
  function PostFinalFrame(sq: byte, net: seq<byte>, dst: seq<byte>, src: seq<byte>): seq<byte>
    requires |net| == 2 && |dst| == 2 && |src| == 2
  {
    [DATA, SHORT_SRC_AND_DEST, sq, net[0], net[1], dst[0], dst[1], src[0], src[1],
     RANGING_TAG_POST_FINAL_RESPONSE_EMBEDDED, 0, 0, 0, 0, 0, 0, 0, 0, 0, 0, 0, 0, 0, 0]
  }

  /** transmitRangingConfirm: 13 bytes, the next anchor at 11..12. */
  function RangingConfirmFrame(sq: byte, net: seq<byte>, dst: seq<byte>, src: seq<byte>, nextAnchor: seq<byte>): seq<byte>
    requires |net| == 2 && |dst| == 2 && |src| == 2 && |nextAnchor| == 2
  {
    [DATA, SHORT_SRC_AND_DEST, sq, net[0], net[1], dst[0], dst[1], src[0], src[1],
     ACTIVITY_CONTROL, RANGING_CONFIRM, nextAnchor[0], nextAnchor[1]]
  }

  /** transmitRangingConfirm_v1: 15 bytes, the distance at 13..14. */
  function RangingConfirmDistanceFrame(sq: byte, net: seq<byte>, dst: seq<byte>, src: seq<byte>, distance: seq<byte>): seq<byte>
    requires |net| == 2 && |dst| == 2 && |src| == 2 && |distance| == 2
  {
    [DATA, SHORT_SRC_AND_DEST, sq, net[0], net[1], dst[0], dst[1], src[0], src[1],
     ACTIVITY_CONTROL, RANGING_CONFIRM, 0, 0, distance[0], distance[1]]
  }

  /** transmitRangingConfirm_v2: 15 bytes, the next anchor at 11..12 and the distance at 13..14. */
  function RangingConfirmNextDistanceFrame(sq: byte, net: seq<byte>, dst: seq<byte>, src: seq<byte>,
                                           nextAnchor: seq<byte>, distance: seq<byte>): seq<byte>
    requires |net| == 2 && |dst| == 2 && |src| == 2 && |nextAnchor| == 2 && |distance| == 2
  {
    [DATA, SHORT_SRC_AND_DEST, sq, net[0], net[1], dst[0], dst[1], src[0], src[1],
     ACTIVITY_CONTROL, RANGING_CONFIRM, nextAnchor[0], nextAnchor[1], distance[0], distance[1]]
  }

  /**
   * transmitRangingConfirm_v3 as written: 17 bytes. Its initialiser has two extra zero bytes
   * after the source address, so the function code lands at 11 and the activity code at 12.
   */
  function RangingConfirmPaddedFrame(sq: byte, net: seq<byte>, dst: seq<byte>, src: seq<byte>, distance: seq<byte>): seq<byte>
    requires |net| == 2 && |dst| == 2 && |src| == 2 && |distance| == 2
  {
    [DATA, SHORT_SRC_AND_DEST, sq, net[0], net[1], dst[0], dst[1], src[0], src[1], 0, 0,
     ACTIVITY_CONTROL, RANGING_CONFIRM, distance[0], distance[1], 0, 0]
  }

  /** transmitActivityFinished: 15 bytes, the encoded blink rate at 11..12. */
  function ActivityFinishedFrame(sq: byte, net: seq<byte>, dst: seq<byte>, src: seq<byte>, blinkRate: seq<byte>): seq<byte>
    requires |net| == 2 && |dst| == 2 && |src| == 2 && |blinkRate| == 2
  {
    [DATA, SHORT_SRC_AND_DEST, sq, net[0], net[1], dst[0], dst[1], src[0], src[1],
     ACTIVITY_CONTROL, ACTIVITY_FINISHED, blinkRate[0], blinkRate[1], 0, 0]
  }

  /** transmitActivityFinished_v2: as ActivityFinishedFrame, with the distance at 13..14. */
  function ActivityFinishedDistanceFrame(sq: byte, net: seq<byte>, dst: seq<byte>, src: seq<byte>,
                                         blinkRate: seq<byte>, distance: seq<byte>): seq<byte>
    requires |net| == 2 && |dst| == 2 && |src| == 2 && |blinkRate| == 2 && |distance| == 2
  {
    [DATA, SHORT_SRC_AND_DEST, sq, net[0], net[1], dst[0], dst[1], src[0], src[1],
     ACTIVITY_CONTROL, ACTIVITY_FINISHED, blinkRate[0], blinkRate[1], distance[0], distance[1]]
  }

  /* ---------- Readers ---------- */

  /** tagRangeRequest's check: longer than 17 bytes, RANGING_INITIATION at 15. */
  predicate IsRangingInitiation(f: seq<byte>) { |f| > 17 && f[15] == RANGING_INITIATION }

  /** The anchors' Poll check: longer than 9 bytes, RANGING_TAG_POLL at 9. */
  predicate IsPoll(f: seq<byte>) { |f| > 9 && f[9] == RANGING_TAG_POLL }

  /** The tag's Response check: longer than 10 bytes, ACTIVITY_CONTROL at 9, RANGING_CONTINUE at 10. */
  predicate IsResponseToPoll(f: seq<byte>) { |f| > 10 && f[9] == ACTIVITY_CONTROL && f[10] == RANGING_CONTINUE }

  /** The anchors' Final check: longer than 18 bytes, RANGING_TAG_FINAL_RESPONSE_EMBEDDED at 9. */
  predicate IsFinal(f: seq<byte>) { |f| > 18 && f[9] == RANGING_TAG_FINAL_RESPONSE_EMBEDDED }

  /** The tag's check on the anchor's last frame: longer than 10 bytes, ACTIVITY_CONTROL at 9. */
  predicate IsActivityControl(f: seq<byte>) { |f| > 10 && f[9] == ACTIVITY_CONTROL }

  /** Within an activity-control frame: longer than 12 bytes, RANGING_CONFIRM at 10. */
  predicate IsRangingConfirm(f: seq<byte>) { |f| > 12 && f[10] == RANGING_CONFIRM }

  /** Within an activity-control frame: longer than 12 bytes, ACTIVITY_FINISHED at 10. */
  predicate IsActivityFinished(f: seq<byte>) { |f| > 12 && f[10] == ACTIVITY_FINISHED }

  /** bytesAsValue(&f[offset], 2) on a frame long enough to hold the two bytes. */
  function Address(f: seq<byte>, offset: nat): uint16
    requires offset + 2 <= |f|
  {
    BytesAsValue(f[offset..offset + 2])
  }

  /**
   * bytesAsValue(&f[offset], width). A read that runs past the end of the received frame
   * yields whatever follows it in memory, which the model does not know.
   */
  function Field(f: seq<byte>, offset: nat, width: nat): (r: Value<nat>)
    ensures r.Known? <==> offset + width <= |f|
    ensures r.Known? ==> r.value < Pow256(width)
  {
    if offset + width <= |f| then Known(BytesAsValue(f[offset..offset + width])) else Indeterminate
  }

  /**
   * calculateNewBlinkRate: byte 11 plus the low six bits of byte 12 times 256, scaled by the
   * multiplier the top two bits of byte 12 select (1 -> x25, 2 -> x1000, 0 and 3 -> x1).
   * The masks `& 0x3F` and `(& 0xC0) >> 6` are `% 64` and `/ 64` (Protocol.BlinkRateMasks).
   */
  function CalculateNewBlinkRate(f: seq<byte>): (rate: nat)
    requires |f| > 12
    ensures rate <= 16383000
  {
    var lo: int, hi: int := f[11], f[12];
    var blinkRate := lo + (hi % 64) * 256;
    var multiplier := hi / 64;
    if multiplier == 1 then blinkRate * 25
    else if multiplier == 2 then blinkRate * 1000
    else blinkRate
  }

  /**
   * The blink-rate wire encoding as a 16-bit value: the low 14 bits are the rate, the top two
   * bits select ×1, ×25, ×1000 (and 3, which is also ×1).
   */
  function DecodeBlinkRate(encoded: uint16): nat
  {
    var rate := encoded % 0x4000;
    var selector := encoded / 0x4000;
    if selector == 1 then rate * 25 else if selector == 2 then rate * 1000 else rate
  }

  /** A data frame's fixed header: DATA, short addressing, sequence, network id, destination, source. */
  predicate HasDataHeader(f: seq<byte>, sq: byte, net: seq<byte>, dst: seq<byte>, src: seq<byte>)
  {
    && |f| >= 9 && |net| == 2 && |dst| == 2 && |src| == 2
    && f[0] == DATA && f[1] == SHORT_SRC_AND_DEST && f[2] == sq
    && f[3] == net[0] && f[4] == net[1] && f[5] == dst[0] && f[6] == dst[1] && f[7] == src[0] && f[8] == src[1]
  }

  /* ---------- Properties ---------- */

  /** The tag's blink-rate decoding agrees with the 16-bit wire encoding read from bytes 11..12. */
  lemma BlinkRateDecodes(f: seq<byte>)
    requires |f| > 12
    ensures CalculateNewBlinkRate(f) == DecodeBlinkRate(Address(f, 11))
  {
    var lo: int, hi: int := f[11], f[12];
    var encoded := Address(f, 11);
    var pair := f[11..13];
    assert pair[0] == lo && pair[1..] == [hi];
    assert [hi][1..] == [];
    assert BytesAsValue([hi]) == hi;
    assert encoded == lo + 256 * hi;
    var top, low6 := hi / 64, hi % 64;
    assert hi == 64 * top + low6;
    assert encoded == 0x4000 * top + (lo + 256 * low6);
    ModUnique(encoded, 0x4000, top, lo + 256 * low6);
    DivUnique(encoded, 0x4000, top, lo + 256 * low6);
  }

  /** Concrete decodings: {0x0A,0x00} is 10, {0x64,0x40} is 0x64*25, {0x64,0x80} is 0x64*1000. */
  lemma BlinkRateExamples(f: seq<byte>)
    requires |f| > 12
    ensures f[11] == 0x0A && f[12] == 0x00 ==> CalculateNewBlinkRate(f) == 10
    ensures f[11] == 0x64 && f[12] == 0x40 ==> CalculateNewBlinkRate(f) == 0x64 * 25
    ensures f[11] == 0x64 && f[12] == 0x80 ==> CalculateNewBlinkRate(f) == 0x64 * 1000
    ensures f[12] < 0x40 ==> CalculateNewBlinkRate(f) == f[11] as int + 256 * f[12] as int
  {}

  /** The DATA frames share one header, and each has its source's fixed length. */
  lemma DataFrameLayouts(sq: byte, net: seq<byte>, dst: seq<byte>, src: seq<byte>,
                         pair: seq<byte>, pair2: seq<byte>, quad: seq<byte>)
    requires |net| == 2 && |dst| == 2 && |src| == 2 && |pair| == 2 && |pair2| == 2 && |quad| == 4
    ensures var f := PollFrame(sq, net, dst, src); HasDataHeader(f, sq, net, dst, src) && |f| == 24
    ensures var f := ResponseToPollFrame(sq, net, dst, src); HasDataHeader(f, sq, net, dst, src) && |f| == 13
    ensures var f := DelayedResponseToPollFrame(sq, net, dst, src); HasDataHeader(f, sq, net, dst, src) && |f| == 24
    ensures var f := FinalFrame(sq, net, dst, src, quad, quad, quad); HasDataHeader(f, sq, net, dst, src) && |f| == 22
    ensures var f := FinalWithPhaseFrame(sq, net, dst, src, quad, quad, quad, quad); HasDataHeader(f, sq, net, dst, src) && |f| == 26
    ensures var f := PostFinalFrame(sq, net, dst, src); HasDataHeader(f, sq, net, dst, src) && |f| == 24
    ensures var f := RangingConfirmFrame(sq, net, dst, src, pair); HasDataHeader(f, sq, net, dst, src) && |f| == 13
    ensures var f := RangingConfirmDistanceFrame(sq, net, dst, src, pair); HasDataHeader(f, sq, net, dst, src) && |f| == 15
    ensures var f := RangingConfirmNextDistanceFrame(sq, net, dst, src, pair, pair2); HasDataHeader(f, sq, net, dst, src) && |f| == 15
    ensures var f := RangingConfirmPaddedFrame(sq, net, dst, src, pair); HasDataHeader(f, sq, net, dst, src) && |f| == 17
    ensures var f := ActivityFinishedFrame(sq, net, dst, src, pair); HasDataHeader(f, sq, net, dst, src) && |f| == 15
    ensures var f := ActivityFinishedDistanceFrame(sq, net, dst, src, pair, pair2); HasDataHeader(f, sq, net, dst, src) && |f| == 15
  {}

  /** The header's fields decode to the values whose bytes were copied in. */
  lemma HeaderDecodes(f: seq<byte>, sq: byte, netId: uint16, dst: uint16, src: uint16)
    requires HasDataHeader(f, sq, WriteValueToBytes(netId, 2), WriteValueToBytes(dst, 2), WriteValueToBytes(src, 2))
    ensures Address(f, 3) == netId && Address(f, 5) == dst && Address(f, 7) == src
  {
    TwoBytesDecode(f, 3, netId);
    TwoBytesDecode(f, 5, dst);
    TwoBytesDecode(f, 7, src);
  }

  /** Two bytes written by writeValueToBytes at an offset read back as the value. */
  lemma TwoBytesDecode(f: seq<byte>, offset: nat, value: uint16)
    requires offset + 2 <= |f|
    requires f[offset] == WriteValueToBytes(value, 2)[0] && f[offset + 1] == WriteValueToBytes(value, 2)[1]
    ensures Address(f, offset) == value
  {
    var w := WriteValueToBytes(value, 2);
    assert f[offset..offset + 2] == w;
    Pow256Widths();
    ValueRoundTrip(value, 2);
  }

  /** Four bytes written by writeValueToBytes at an offset read back as the value's low 32 bits. */
  lemma FourBytesDecode(f: seq<byte>, offset: nat, value: nat)
    requires offset + 4 <= |f|
    requires f[offset..offset + 4] == WriteValueToBytes(value, 4)
    ensures Field(f, offset, 4) == Known(ToUint32(value))
  {
    Pow256Widths();
    ValueRoundTrip(value, 4);
  }

  /** A Blink is 12 bytes, starts with BLINK and carries the EUI at 2..9. */
  lemma BlinkLayout(sq: byte, eui: seq<byte>)
    requires |eui| == 8
    ensures var f := BlinkFrame(sq, eui); |f| == 12 && f[0] == BLINK && f[1] == sq && f[2..10] == eui
    ensures var f := BlinkFrame(sq, eui); f[10] == 0x43 && f[0] != DATA
  {
    BlinkHeaderValue();
  }

  /**
   * Every frame transmitRangingInitiation builds passes tagRangeRequest's check, and the tag reads
   * back the assigned short address (16..17) and the sender's address (13..14).
   */
  lemma RangingInitiationAccepted(sq: byte, net: seq<byte>, tagEui: seq<byte>, src: seq<byte>, tagShort: seq<byte>)
    requires |net| == 2 && |tagEui| == 8 && |src| == 2 && |tagShort| == 2
    ensures var f := RangingInitiationFrame(sq, net, tagEui, src, tagShort);
      && IsRangingInitiation(f) && |f| == 18 && f[5..13] == tagEui
      && Address(f, 16) == BytesAsValue(tagShort) && Address(f, 13) == BytesAsValue(src)
  {
    var f := RangingInitiationFrame(sq, net, tagEui, src, tagShort);
    assert f[16..18] == tagShort;
    assert f[13..15] == src;
  }

  /**
   * Each reader accepts the frame meant for it and rejects the others: the code bytes at 9 and
   * 10 never let one message pass for another.
   */
  lemma ReadersTellFramesApart(sq: byte, net: seq<byte>, dst: seq<byte>, src: seq<byte>, pair: seq<byte>, quad: seq<byte>)
    requires |net| == 2 && |dst| == 2 && |src| == 2 && |pair| == 2 && |quad| == 4
    ensures var f := PollFrame(sq, net, dst, src);
      IsPoll(f) && !IsFinal(f) && !IsResponseToPoll(f) && !IsActivityControl(f)
    ensures var f := ResponseToPollFrame(sq, net, dst, src);
      IsResponseToPoll(f) && IsActivityControl(f) && !IsRangingConfirm(f) && !IsActivityFinished(f) && !IsPoll(f) && !IsFinal(f)
    ensures var f := FinalFrame(sq, net, dst, src, quad, quad, quad);
      IsFinal(f) && !IsPoll(f) && !IsResponseToPoll(f) && !IsActivityControl(f)
    ensures var f := RangingConfirmFrame(sq, net, dst, src, pair);
      IsActivityControl(f) && IsRangingConfirm(f) && !IsActivityFinished(f) && !IsResponseToPoll(f) && !IsPoll(f) && !IsFinal(f)
    ensures var f := ActivityFinishedFrame(sq, net, dst, src, pair);
      IsActivityControl(f) && IsActivityFinished(f) && !IsRangingConfirm(f) && !IsResponseToPoll(f) && !IsPoll(f) && !IsFinal(f)
  {}

  /** The payload the anchor puts in a Confirm or Finished frame is what the tag reads back. */
  lemma ActivityPayloadsDecode(sq: byte, net: seq<byte>, dst: seq<byte>, src: seq<byte>, value: uint16)
    requires |net| == 2 && |dst| == 2 && |src| == 2
    ensures Address(RangingConfirmFrame(sq, net, dst, src, WriteValueToBytes(value, 2)), 11) == value
    ensures CalculateNewBlinkRate(ActivityFinishedFrame(sq, net, dst, src, WriteValueToBytes(value, 2))) == DecodeBlinkRate(value)
  {
    var v := WriteValueToBytes(value, 2);
    Pow256Widths();
    ValueRoundTrip(value, 2);
    var c := RangingConfirmFrame(sq, net, dst, src, v);
    assert c[11..13] == v;
    var a := ActivityFinishedFrame(sq, net, dst, src, v);
    assert a[11..13] == v;
    BlinkRateDecodes(a);
  }

  /** The distance carried at 13..14 by the distance-returning frames is what the tag reads back. */
  lemma DistancePayloadsDecode(sq: byte, net: seq<byte>, dst: seq<byte>, src: seq<byte>, pair: seq<byte>, mm: nat)
    requires |net| == 2 && |dst| == 2 && |src| == 2 && |pair| == 2
    ensures Field(RangingConfirmDistanceFrame(sq, net, dst, src, WriteValueToBytes(mm, 2)), 13, 2) == Known(mm % 0x1_0000)
    ensures Field(RangingConfirmNextDistanceFrame(sq, net, dst, src, pair, WriteValueToBytes(mm, 2)), 13, 2) == Known(mm % 0x1_0000)
    ensures Field(ActivityFinishedDistanceFrame(sq, net, dst, src, pair, WriteValueToBytes(mm, 2)), 13, 2) == Known(mm % 0x1_0000)
  {
    var d := WriteValueToBytes(mm, 2);
    Pow256Widths();
    ValueRoundTrip(mm, 2);
    assert RangingConfirmDistanceFrame(sq, net, dst, src, d)[13..15] == d;
    assert RangingConfirmNextDistanceFrame(sq, net, dst, src, pair, d)[13..15] == d;
    assert ActivityFinishedDistanceFrame(sq, net, dst, src, pair, d)[13..15] == d;
  }

  /** A transmitRangingConfirm_v2 frame passes the tag's checks; next anchor and distance read back. */
  lemma ConfirmNextDistanceDecodes(sq: byte, net: seq<byte>, dst: seq<byte>, src: seq<byte>, nextAnchor: uint16, mm: uint16)
    requires |net| == 2 && |dst| == 2 && |src| == 2
    ensures var f := RangingConfirmNextDistanceFrame(sq, net, dst, src, WriteValueToBytes(nextAnchor, 2), WriteValueToBytes(mm, 2));
      && IsActivityControl(f) && IsRangingConfirm(f)
      && Address(f, 11) == nextAnchor && Field(f, 13, 2) == Known(mm)
  {
    var next, d := WriteValueToBytes(nextAnchor, 2), WriteValueToBytes(mm, 2);
    var f := RangingConfirmNextDistanceFrame(sq, net, dst, src, next, d);
    assert f[11..13] == next;
    assert f[13..15] == d;
    Uint16RoundTrip(nextAnchor);
    Uint16RoundTrip(mm);
  }

  /** Reading the bytes of a concatenation. */
  lemma {:induction false} BytesAsValueAppend(s: seq<byte>, t: seq<byte>)
    ensures BytesAsValue(s + t) == BytesAsValue(s) + Pow256(|s|) * BytesAsValue(t)
  {
    if s == [] {
      assert s + t == t;
    } else {
      var st := s + t;
      assert st[0] == s[0] && st[1..] == s[1..] + t;
      BytesAsValueAppend(s[1..], t);
      ShiftedSum(s[0], BytesAsValue(s[1..]), Pow256(|s| - 1), BytesAsValue(t));
    }
  }

  lemma ShiftedSum(b: int, rest: int, p: int, t: int)
    ensures b + 256 * (rest + p * t) == (b + 256 * rest) + (256 * p) * t
  {}

  /**
   * The Final frame's three timestamps, written as 32-bit truncations, read back exactly when
   * the reader takes 4 bytes per field.
   */
  lemma FinalTimestampsDecode(sq: byte, net: seq<byte>, dst: seq<byte>, src: seq<byte>, pollSent: nat, responseReceived: nat, finalSent: nat)
    requires |net| == 2 && |dst| == 2 && |src| == 2
    ensures var f := FinalFrame(sq, net, dst, src, WriteValueToBytes(ToUint32(pollSent), 4),
                                WriteValueToBytes(ToUint32(responseReceived), 4), WriteValueToBytes(ToUint32(finalSent), 4));
      && IsFinal(f)
      && Field(f, 10, 4) == Known(ToUint32(pollSent))
      && Field(f, 14, 4) == Known(ToUint32(responseReceived))
      && Field(f, 18, 4) == Known(ToUint32(finalSent))
  {
    var a, b, c := WriteValueToBytes(ToUint32(pollSent), 4), WriteValueToBytes(ToUint32(responseReceived), 4), WriteValueToBytes(ToUint32(finalSent), 4);
    var f := FinalFrame(sq, net, dst, src, a, b, c);
    assert f[10..14] == a;
    assert f[14..18] == b;
    assert f[18..22] == c;
    FourBytesDecode(f, 10, ToUint32(pollSent));
    FourBytesDecode(f, 14, ToUint32(responseReceived));
    FourBytesDecode(f, 18, ToUint32(finalSent));
  }

  /**
   * A reader taking more than 4 bytes per timestamp (LENGTH_TIMESTAMP) picks up the next
   * field's low bytes, and its read of the last field overruns the 22-byte frame.
   */
  lemma FinalWideReadOverlaps(sq: byte, net: seq<byte>, dst: seq<byte>, src: seq<byte>, a: seq<byte>, b: seq<byte>, c: seq<byte>, width: nat)
    requires |net| == 2 && |dst| == 2 && |src| == 2 && |a| == 4 && |b| == 4 && |c| == 4
    requires 4 < width <= 8
    ensures var f := FinalFrame(sq, net, dst, src, a, b, c);
      && Field(f, 10, width) == Known(BytesAsValue(a) + UINT32_MODULUS * BytesAsValue(b[..width - 4]))
      && Field(f, 18, width) == Indeterminate
  {
    var f := FinalFrame(sq, net, dst, src, a, b, c);
    assert f[10..10 + width] == a + b[..width - 4];
    BytesAsValueAppend(a, b[..width - 4]);
    Pow256Widths();
  }

  /** As written, a transmitRangingConfirm_v3 frame fails every tag's byte-9 ACTIVITY_CONTROL check. */
  lemma PaddedConfirmRejected(sq: byte, net: seq<byte>, dst: seq<byte>, src: seq<byte>, distance: seq<byte>)
    requires |net| == 2 && |dst| == 2 && |src| == 2 && |distance| == 2
    ensures var f := RangingConfirmPaddedFrame(sq, net, dst, src, distance);
      !IsActivityControl(f) && f[11] == ACTIVITY_CONTROL && f[12] == RANGING_CONFIRM
  {}

  /**
   * Without the two stray bytes (the transmitRangingConfirm_v1 layout) the same Confirm passes
   * the tag's checks and the distance reads back.
   */
  lemma DistanceConfirmAccepted(sq: byte, net: seq<byte>, dst: seq<byte>, src: seq<byte>, mm: nat)
    requires |net| == 2 && |dst| == 2 && |src| == 2
    ensures var f := RangingConfirmDistanceFrame(sq, net, dst, src, WriteValueToBytes(mm, 2));
      IsActivityControl(f) && IsRangingConfirm(f) && Field(f, 13, 2) == Known(mm % 0x1_0000)
  {
    DistancePayloadsDecode(sq, net, dst, src, [0, 0], mm);
  }
}
