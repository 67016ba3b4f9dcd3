/**
 * The protocol vocabulary of the two-way-ranging message set (ISO/IEC 24730-62:2013 as used by
 * the DW1000 RTLS layer): frame-control bytes, function codes, activity codes, the Blink
 * encoding header, the anchor's NextActivity choice and the result records the state machines
 * return.
 */
module Protocol {
  import opened Bytes

  /* Frame control */
  const BLINK: byte := 0xC5
  const DATA: byte := 0x41
  const SHORT_SRC_AND_DEST: byte := 0x88
  const LONG_SRC_AND_DEST: byte := 0xCC
  const SHORT_SRC_LONG_DEST: byte := 0x8C
  const LONG_SRC_SHORT_DEST: byte := 0xC8

  /* Application id, assembled from its two bytes as the header does */
  const RTLS_APP_ID_LOW: byte := 0x9A
  const RTLS_APP_ID_HIGH: byte := 0x60
  const RTLS_APP_ID: uint16 := ((RTLS_APP_ID_LOW as bv16) | ((RTLS_APP_ID_HIGH as bv16) << 8)) as int

  /* Function codes */
  const ACTIVITY_CONTROL: byte := 0x10
  const RANGING_INITIATION: byte := 0x20
  const RANGING_TAG_POLL: byte := 0x21
  const RANGING_TAG_FINAL_RESPONSE_EMBEDDED: byte := 0x23
  const RANGING_TAG_FINAL_RESPONSE_NO_EMBEDDED: byte := 0x25
  const RANGING_TAG_FINAL_SEND_TIME: byte := 0x27
  const RANGING_TAG_POST_FINAL_RESPONSE_EMBEDDED: byte := 0x29

  /* Activity codes (the byte after ACTIVITY_CONTROL) */
  const ACTIVITY_FINISHED: byte := 0x00
  const RANGING_CONFIRM: byte := 0x01
  const RANGING_CONTINUE: byte := 0x02

  /* Blink encoding header */
  const BATTERY_GOOD: byte := 0x00
  const BATTERY_10_30_PERCENT: byte := 0x02
  const BATTERY_0_10_PERCENT: byte := 0x01
  const NO_BATTERY_STATUS: byte := 0x03
  const TEMPERATURE_DATA: byte := 0x20
  const EX_ID: byte := 0x80
  const NO_EX_ID: byte := 0x40

  /* Blink ext header */
  const BLINK_RATE_AND_LISTENING: byte := 0x01
  const TAG_LISTENING_NOW: byte := 0x02

  /** The encoding-header byte a short Blink carries: NO_BATTERY_STATUS | NO_EX_ID. */
  const BLINK_HEADER: byte := ((NO_BATTERY_STATUS as bv8) | (NO_EX_ID as bv8)) as int

  /** The function codes that sit at offset 9 (offset 15 for a Ranging Initiation). */
  const FUNCTION_CODES: seq<byte> := [ACTIVITY_CONTROL, RANGING_INITIATION, RANGING_TAG_POLL,
    RANGING_TAG_FINAL_RESPONSE_EMBEDDED, RANGING_TAG_FINAL_RESPONSE_NO_EMBEDDED,
    RANGING_TAG_FINAL_SEND_TIME, RANGING_TAG_POST_FINAL_RESPONSE_EMBEDDED]

  /** The activity codes that sit at offset 10 after ACTIVITY_CONTROL. */
  const ACTIVITY_CODES: seq<byte> := [ACTIVITY_FINISHED, RANGING_CONFIRM, RANGING_CONTINUE]

  /** What the anchor tells the tag to do once a range is measured. */
  datatype NextActivity = ActivityFinished | RangingConfirm

  /**
   * A C++ result that is sometimes returned without being assigned. Indeterminate stands for
   * an uninitialised struct or field, and for a value read past the end of a received frame.
   */
  datatype Value<T> = Known(value: T) | Indeterminate

  datatype RangeRequestResult = RangeRequestResult(success: bool, targetAnchor: uint16)

  /** One poll/final exchange seen from the tag; newBlinkRate is a uint32_t. */
  datatype RangeResult = RangeResult(success: bool, next: bool, nextAnchor: uint16, newBlinkRate: nat)

  /** As RangeResult, plus the distance the anchor reported, in millimetres as carried on the wire. */
  datatype RangeResultV2 = RangeResultV2(success: bool, next: bool, nextAnchor: uint16, newBlinkRate: nat,
                                         distanceMm: Value<nat>)

  datatype RangeInfrastructureResult = RangeInfrastructureResult(success: bool, newBlinkRate: uint16)

  datatype RangeInfrastructureResultV2 = RangeInfrastructureResultV2(
    success: bool, newBlinkRate: uint16, mainDistMm: Value<nat>, bDistMm: Value<nat>, cDistMm: Value<nat>)

  datatype RangeAcceptResult = RangeAcceptResult(success: bool, range: real)

  /**
   * New_structure: the tag's result for a single distance request, in millimetres. The distance
   * is read from bytes 13..14 of the Confirm, which a short Confirm does not hold.
   */
  datatype DistanceResult = DistanceResult(success: bool, distanceMm: Value<nat>)

  const RANGE_FAILED := RangeResult(false, false, 0, 0)
  const RANGE_FAILED_V2 := RangeResultV2(false, false, 0, 0, Known(0))
  const INFRASTRUCTURE_FAILED := RangeInfrastructureResult(false, 0)
  const INFRASTRUCTURE_FAILED_V2 := RangeInfrastructureResultV2(false, 0, Known(0), Known(0), Known(0))
  const ACCEPT_FAILED := RangeAcceptResult(false, 0.0)
  const DISTANCE_FAILED := DistanceResult(false, Known(0))

  /** The application id is 0x609A: low byte 0x9A, high byte 0x60. */
  lemma AppIdBytes()
    ensures RTLS_APP_ID == 0x609A
    ensures RTLS_APP_ID % 256 == RTLS_APP_ID_LOW && RTLS_APP_ID / 256 == RTLS_APP_ID_HIGH
  {}

  /** A short Blink announces "no battery status, no extended id" as 0x43. */
  lemma BlinkHeaderValue()
    ensures BLINK_HEADER == 0x43
  {}

  /** Byte 0 tells a Blink from a data frame. */
  lemma FrameControlDistinct()
    ensures BLINK != DATA
  {}

  /** No two function codes coincide, so a check of the function-code byte never confuses frame types. */
  lemma FunctionCodesDistinct()
    ensures forall i, j :: 0 <= i < j < |FUNCTION_CODES| ==> FUNCTION_CODES[i] != FUNCTION_CODES[j]
  {}

  /** No two activity codes coincide, so the byte-10 dispatch is unambiguous. */
  lemma ActivityCodesDistinct()
    ensures forall i, j :: 0 <= i < j < |ACTIVITY_CODES| ==> ACTIVITY_CODES[i] != ACTIVITY_CODES[j]
  {}

  /** The C masks of the blink-rate bytes are arithmetic on the byte's value. */
  lemma BlinkRateMasks(b: bv8)
    ensures (b & 0x3F) as int == b as int % 64
    ensures ((b & 0xC0) >> 6) as int == b as int / 64
  {}
}
