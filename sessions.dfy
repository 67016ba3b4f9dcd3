/**
 * The outcomes of the tag and anchor state machines as functions of what the radio receives.
 * Each function reads a script of reception attempts and says what the corresponding C++
 * routine returns. Companion functions say how much of the script it uses up. The methods of
 * Rtls.Node are proved against these.
 */
module Sessions {
  import opened Bytes
  import opened Protocol
  import opened Frames
  import opened Driver

  /* ---------- Sequence numbers ---------- */

  /** SEQ_NUMBER++ on a byte: the counter after one frame. */
  function NextSequence(s: byte): (r: byte)
    ensures r == (s + 1) % 256
  {
    if s == 255 then 0 else s + 1
  }

  /** The counter after n frames. */
  function SequenceAfter(s: byte, n: nat): byte
  {
    if n == 0 then s else NextSequence(SequenceAfter(s, n - 1))
  }

  /** n frames move the counter n steps round the byte. */
  lemma {:induction false} SequenceAfterWraps(s: byte, n: nat)
    ensures SequenceAfter(s, n) == (s + n) % 256
  {
    if n > 0 {
      SequenceAfterWraps(s, n - 1);
      var k := (s + n - 1) / 256;
      ModUnique(s + n - 1, 256, k, SequenceAfter(s, n - 1));
      if SequenceAfter(s, n - 1) == 255 {
        ModUnique(s + n, 256, k + 1, 0);
      } else {
        ModUnique(s + n, 256, k, SequenceAfter(s, n - 1) + 1);
      }
    }
  }

  /* ---------- Tag: range request ---------- */

  /** The reply to the Blink is a Ranging Initiation the tag accepts. */
  predicate InitiationArrives(events: seq<Event>)
  {
    Arrives(events) && IsRangingInitiation(events[0].data)
  }

  /** tagRangeRequest's result, once the Blink is out. */
  function RangeRequest(events: seq<Event>): (r: RangeRequestResult)
    ensures r.success <==> InitiationArrives(events)
    ensures !r.success ==> r == RangeRequestResult(false, 0)
  {
    if InitiationArrives(events) then RangeRequestResult(true, Address(events[0].data, 13))
    else RangeRequestResult(false, 0)
  }

  /** The tag's short address after tagRangeRequest. */
  function AssignedAddress(events: seq<Event>, current: uint16): (a: uint16)
    ensures !InitiationArrives(events) ==> a == current
  {
    if InitiationArrives(events) then Address(events[0].data, 16) else current
  }

  /**
   * An anchor's Ranging Initiation, built by transmitRangingInitiation, makes the tag succeed
   * with the sender's address as target and take the offered short address as its own.
   */
  lemma InitiationRoundTrip(events: seq<Event>, sq: byte, net: seq<byte>, tagEui: seq<byte>, anchor: uint16, tagShort: uint16, current: uint16)
    requires |net| == 2 && |tagEui| == 8
    requires events != [] && events[0].Frame?
    requires events[0].data == RangingInitiationFrame(sq, net, tagEui, WriteValueToBytes(anchor, 2), WriteValueToBytes(tagShort, 2))
    ensures RangeRequest(events) == RangeRequestResult(true, anchor)
    ensures AssignedAddress(events, current) == tagShort
  {
    var src, short := WriteValueToBytes(anchor, 2), WriteValueToBytes(tagShort, 2);
    RangingInitiationAccepted(sq, net, tagEui, src, short);
    Uint16RoundTrip(anchor);
    Uint16RoundTrip(tagShort);
  }

  /* ---------- Tag: one poll/final exchange ---------- */

  /** The reply to the Poll is a Response the tag accepts. */
  predicate ResponseArrives(events: seq<Event>)
  {
    Arrives(events) && IsResponseToPoll(events[0].data)
  }

  /** The anchor's last frame arrives after an accepted Response. */
  predicate ActivityArrives(events: seq<Event>)
  {
    ResponseArrives(events) && Arrives(events[1..])
  }

  /** tagFinishRange's verdict on the anchor's last frame. */
  function ActivityVerdict(a: seq<byte>): (r: Value<RangeResult>)
    ensures r == Known(RANGE_FAILED) <==> !IsActivityControl(a)
  {
    if !IsActivityControl(a) then Known(RANGE_FAILED)
    else if IsRangingConfirm(a) then Known(RangeResult(true, true, Address(a, 11), 0))
    else if IsActivityFinished(a) then Known(RangeResult(true, false, 0, CalculateNewBlinkRate(a)))
    else Indeterminate
  }

  /** tagFinishRange's result, once the Poll is out. */
  function FinishRange(events: seq<Event>): (r: Value<RangeResult>)
    ensures r.Known? && r.value.success ==> ActivityArrives(events)
  {
    if !ActivityArrives(events) then Known(RANGE_FAILED) else ActivityVerdict(events[1].data)
  }

  /** The script left after one poll/final exchange: one attempt, or two once a Response is accepted. */
  function FinishRangeRest(events: seq<Event>): (rest: seq<Event>)
    ensures ActivityArrives(events) ==> rest == events[2..]
    ensures !ResponseArrives(events) ==> rest == Rest(events)
    ensures |rest| <= |events|
  {
    if ResponseArrives(events) then Rest(events[1..]) else Rest(events)
  }

  /** tagFinishRange_v2's verdict: as ActivityVerdict, plus the distance at 13..14. */
  function ActivityVerdictV2(a: seq<byte>): (r: Value<RangeResultV2>)
    ensures r == Known(RANGE_FAILED_V2) <==> !IsActivityControl(a)
  {
    if !IsActivityControl(a) then Known(RANGE_FAILED_V2)
    else if IsRangingConfirm(a) then Known(RangeResultV2(true, true, Address(a, 11), 0, Field(a, 13, 2)))
    else if IsActivityFinished(a) then Known(RangeResultV2(true, false, 0, CalculateNewBlinkRate(a), Field(a, 13, 2)))
    else Indeterminate
  }

  /** tagFinishRange_v2's result, once the Poll is out. */
  function FinishRangeV2(events: seq<Event>): (r: Value<RangeResultV2>)
    ensures r.Known? && r.value.success ==> ActivityArrives(events)
  {
    if !ActivityArrives(events) then Known(RANGE_FAILED_V2) else ActivityVerdictV2(events[1].data)
  }

  /** The two versions agree on everything but the distance. */
  lemma FinishRangeV2Extends(events: seq<Event>)
    ensures FinishRange(events).Known? <==> FinishRangeV2(events).Known?
    ensures FinishRange(events).Known? ==>
      var r, r2 := FinishRange(events).value, FinishRangeV2(events).value;
      r2.success == r.success && r2.next == r.next && r2.nextAnchor == r.nextAnchor && r2.newBlinkRate == r.newBlinkRate
  {}

  /** tagFinishRange succeeds exactly when an accepted Response is followed by a Confirm or a Finished. */
  lemma FinishRangeSucceedsIff(events: seq<Event>)
    ensures FinishRange(events).Known? && FinishRange(events).value.success <==>
      ActivityArrives(events) && IsActivityControl(events[1].data)
      && (IsRangingConfirm(events[1].data) || IsActivityFinished(events[1].data))
    ensures FinishRange(events).Indeterminate? <==>
      ActivityArrives(events) && IsActivityControl(events[1].data)
      && !IsRangingConfirm(events[1].data) && !IsActivityFinished(events[1].data)
  {}

  /** The anchor's Response followed by its Confirm sends the tag to the anchor named in the Confirm. */
  lemma ConfirmDrivesTag(events: seq<Event>, sq: byte, sq2: byte, net: seq<byte>, dst: seq<byte>, src: seq<byte>, nextAnchor: uint16)
    requires |net| == 2 && |dst| == 2 && |src| == 2 && |events| >= 2 && events[0].Frame? && events[1].Frame?
    requires events[0].data == ResponseToPollFrame(sq, net, dst, src)
    requires events[1].data == RangingConfirmFrame(sq2, net, dst, src, WriteValueToBytes(nextAnchor, 2))
    ensures FinishRange(events) == Known(RangeResult(true, true, nextAnchor, 0))
    ensures FinishRangeRest(events) == events[2..]
  {
    ReadersTellFramesApart(sq, net, dst, src, WriteValueToBytes(nextAnchor, 2), [0, 0, 0, 0]);
    ReadersTellFramesApart(sq2, net, dst, src, WriteValueToBytes(nextAnchor, 2), [0, 0, 0, 0]);
    ActivityPayloadsDecode(sq2, net, dst, src, nextAnchor);
  }

  /** The anchor's Response followed by its Finished hands the tag the encoded blink rate. */
  lemma FinishedDrivesTag(events: seq<Event>, sq: byte, sq2: byte, net: seq<byte>, dst: seq<byte>, src: seq<byte>, rate: uint16)
    requires |net| == 2 && |dst| == 2 && |src| == 2 && |events| >= 2 && events[0].Frame? && events[1].Frame?
    requires events[0].data == ResponseToPollFrame(sq, net, dst, src)
    requires events[1].data == ActivityFinishedFrame(sq2, net, dst, src, WriteValueToBytes(rate, 2))
    ensures FinishRange(events) == Known(RangeResult(true, false, 0, DecodeBlinkRate(rate)))
    ensures FinishRangeRest(events) == events[2..]
  {
    ReadersTellFramesApart(sq, net, dst, src, WriteValueToBytes(rate, 2), [0, 0, 0, 0]);
    ReadersTellFramesApart(sq2, net, dst, src, WriteValueToBytes(rate, 2), [0, 0, 0, 0]);
    ActivityPayloadsDecode(sq2, net, dst, src, rate);
  }

  /* ---------- Tag: infrastructure ranging ---------- */

  /** What tagRangeInfrastructure returns after its last hop (a successful hop with next == false). */
  function Terminal(hop: RangeResult): Value<RangeInfrastructureResult>
  {
    if hop.newBlinkRate != 0 then Known(RangeInfrastructureResult(true, hop.newBlinkRate % 0x1_0000)) else Indeterminate
  }

  /**
   * tagRangeInfrastructure's result: hops follow one another while each succeeds with
   * next == true. A failed hop fails the whole, an undetermined hop leaves the whole
   * undetermined, and the last hop decides through Terminal.
   */
  function Infrastructure(events: seq<Event>): Value<RangeInfrastructureResult>
    decreases |events|
  {
    match FinishRange(events)
    case Indeterminate => Indeterminate
    case Known(hop) =>
      if !hop.success then Known(INFRASTRUCTURE_FAILED)
      else if hop.next then Infrastructure(FinishRangeRest(events))
      else Terminal(hop)
  }

  /** A successful infrastructure ranging has received an accepted Finished somewhere in its script. */
  lemma {:induction false} InfrastructureNeedsFinished(events: seq<Event>)
    ensures Infrastructure(events).Known? && Infrastructure(events).value.success ==>
      exists i :: 0 < i < |events| && events[i].Frame? && IsActivityControl(events[i].data) && IsActivityFinished(events[i].data)
  {
    match FinishRange(events)
    case Indeterminate =>
    case Known(hop) =>
      if hop.success && hop.next {
        var rest := FinishRangeRest(events);
        InfrastructureNeedsFinished(rest);
        if Infrastructure(rest).Known? && Infrastructure(rest).value.success {
          var i :| 0 < i < |rest| && rest[i].Frame? && IsActivityControl(rest[i].data) && IsActivityFinished(rest[i].data);
          assert events[i + 2] == rest[i];
        }
      } else if hop.success {
        assert events[1].Frame? && IsActivityControl(events[1].data) && IsActivityFinished(events[1].data);
      }
  }

  /** The script from the last hop of an infrastructure run on: accepted Confirms are followed until a hop is not one. */
  function LastHop(events: seq<Event>): (last: seq<Event>)
    ensures FinishRange(last).Known? && FinishRange(last).value.success ==> !FinishRange(last).value.next
    decreases |events|
  {
    match FinishRange(events)
    case Indeterminate => events
    case Known(hop) => if hop.success && hop.next then LastHop(FinishRangeRest(events)) else events
  }

  /**
   * Whatever the script: when the last hop's reply is a Finished, the run reports its blink rate
   * truncated to 16 bits, or is undetermined when that rate is 0; and only such a run succeeds.
   */
  lemma {:induction false} InfrastructureReportsLastFinished(events: seq<Event>)
    ensures var last := LastHop(events);
      ActivityArrives(last) && IsActivityControl(last[1].data) && IsActivityFinished(last[1].data) ==>
        var rate := CalculateNewBlinkRate(last[1].data);
        Infrastructure(events) == if rate != 0 then Known(RangeInfrastructureResult(true, rate % 0x1_0000)) else Indeterminate
    ensures Infrastructure(events).Known? && Infrastructure(events).value.success ==>
      var last := LastHop(events);
      ActivityArrives(last) && IsActivityControl(last[1].data) && IsActivityFinished(last[1].data)
    decreases |events|
  {
    match FinishRange(events)
    case Indeterminate =>
    case Known(hop) =>
      if hop.success && hop.next {
        InfrastructureReportsLastFinished(FinishRangeRest(events));
      }
  }

  /** The anchors an infrastructure run polls, in order: the target, then the next_anchor of each accepted Confirm. */
  function PolledAnchors(target: uint16, events: seq<Event>): (anchors: seq<uint16>)
    ensures |anchors| >= 1 && anchors[0] == target
    decreases |events|
  {
    match FinishRange(events)
    case Indeterminate => [target]
    case Known(hop) =>
      if hop.success && hop.next then [target] + PolledAnchors(hop.nextAnchor, FinishRangeRest(events)) else [target]
  }

  /** The destination addresses (bytes 5..6) of the Polls in a transmit log, oldest first. */
  function PollDestinations(log: seq<Transmission>): seq<uint16>
  {
    if log == [] then []
    else (if IsPoll(log[0].data) then [Address(log[0].data, 5)] else []) + PollDestinations(log[1..])
  }

  lemma {:induction false} PollDestinationsAppend(a: seq<Transmission>, b: seq<Transmission>)
    ensures PollDestinations(a + b) == PollDestinations(a) + PollDestinations(b)
  {
    if a != [] {
      assert (a + b)[1..] == a[1..] + b;
      PollDestinationsAppend(a[1..], b);
    } else {
      assert a + b == b;
    }
  }

  /** One hop of the run polls its anchor, then continues with the next_anchor of an accepted Confirm. */
  lemma PolledStep(polled: seq<uint16>, anchor: uint16, events: seq<Event>, total: seq<uint16>)
    requires polled + PolledAnchors(anchor, events) == total
    ensures var hop := FinishRange(events);
      (polled + [anchor]) + (if hop.Known? && hop.value.success && hop.value.next
                             then PolledAnchors(hop.value.nextAnchor, FinishRangeRest(events)) else []) == total
  {}

  /** A log grown from log by frames that poll one anchor extends the Polls sent since base by that anchor. */
  lemma ExtendPolls(base: seq<Transmission>, log: seq<Transmission>, grown: seq<Transmission>, anchor: uint16)
    requires base <= log <= grown && PollDestinations(grown[|log|..]) == [anchor]
    ensures base <= grown
    ensures PollDestinations(grown[|base|..]) == PollDestinations(log[|base|..]) + [anchor]
  {
    assert grown[|base|..] == log[|base|..] + grown[|log|..];
    PollDestinationsAppend(log[|base|..], grown[|log|..]);
  }

  /** Any hop that fails makes the whole fail: a first Response lost or rejected gives {false, 0}. */
  lemma InfrastructureFailsWithFirstHop(events: seq<Event>)
    requires !ResponseArrives(events)
    ensures Infrastructure(events) == Known(INFRASTRUCTURE_FAILED)
  {}

  /** An accepted Confirm passes the result of the rest of the script through unchanged. */
  lemma InfrastructureSkipsConfirm(events: seq<Event>)
    requires FinishRange(events).Known? && FinishRange(events).value.success && FinishRange(events).value.next
    ensures Infrastructure(events) == Infrastructure(events[2..])
  {}

  /**
   * Three anchors: the first two reply Confirm naming the next one, the third replies Finished with
   * an encoded rate. The tag reports the decoded rate truncated to 16 bits, or nothing determinate
   * when that rate is zero.
   */
  lemma ThreeAnchorInfrastructure(events: seq<Event>, sq: seq<byte>, net: seq<byte>, tag: seq<byte>,
                                  a: seq<byte>, b: seq<byte>, c: seq<byte>, bAddress: uint16, cAddress: uint16, rate: uint16)
    requires |sq| == 6 && |net| == 2 && |tag| == 2 && |a| == 2 && |b| == 2 && |c| == 2 && |events| == 6
    requires forall i :: 0 <= i < 6 ==> events[i].Frame?
    requires events[0].data == ResponseToPollFrame(sq[0], net, tag, a)
    requires events[1].data == RangingConfirmFrame(sq[1], net, tag, a, WriteValueToBytes(bAddress, 2))
    requires events[2].data == ResponseToPollFrame(sq[2], net, tag, b)
    requires events[3].data == RangingConfirmFrame(sq[3], net, tag, b, WriteValueToBytes(cAddress, 2))
    requires events[4].data == ResponseToPollFrame(sq[4], net, tag, c)
    requires events[5].data == ActivityFinishedFrame(sq[5], net, tag, c, WriteValueToBytes(rate, 2))
    ensures DecodeBlinkRate(rate) != 0 ==> Infrastructure(events) == Known(RangeInfrastructureResult(true, DecodeBlinkRate(rate) % 0x1_0000))
    ensures DecodeBlinkRate(rate) == 0 ==> Infrastructure(events) == Indeterminate
  {
    var e2, e4 := events[2..], events[4..];
    assert e2[2..] == e4;
    ConfirmDrivesTag(events, sq[0], sq[1], net, tag, a, bAddress);
    InfrastructureSkipsConfirm(events);
    ConfirmDrivesTag(e2, sq[2], sq[3], net, tag, b, cAddress);
    InfrastructureSkipsConfirm(e2);
    FinishedDrivesTag(e4, sq[4], sq[5], net, tag, c, rate);
    assert Infrastructure(events) == Infrastructure(e4);
  }

  /** The 16-bit result field loses rates above 0xFFFF: 8192 with the x1000 selector reports success with rate 0. */
  lemma TruncatedRate()
    ensures DecodeBlinkRate(0xA000) == 8192000
    ensures Terminal(RangeResult(true, false, 0, 8192000)) == Known(RangeInfrastructureResult(true, 0))
  {}

  /* ---------- Tag: infrastructure ranging with distances (_v2) ---------- */

  /** tagRangeInfrastructure_v2 after its last hop, with the distances gathered so far. */
  function TerminalV2(hop: RangeResultV2, main: Value<nat>, b: Value<nat>, c: Value<nat>): Value<RangeInfrastructureResultV2>
  {
    if hop.newBlinkRate != 0 then Known(RangeInfrastructureResultV2(true, hop.newBlinkRate % 0x1_0000, main, b, c))
    else Indeterminate
  }

  /**
   * The hops after the first: a successful hop whose next_anchor is 3 sets b_dist, any other
   * successful hop sets c_dist.
   */
  function LaterHopsV2(events: seq<Event>, main: Value<nat>, b: Value<nat>, c: Value<nat>): Value<RangeInfrastructureResultV2>
    decreases |events|
  {
    match FinishRangeV2(events)
    case Indeterminate => Indeterminate
    case Known(hop) =>
      if !hop.success then Known(INFRASTRUCTURE_FAILED_V2)
      else
        var b' := if hop.nextAnchor == 3 then hop.distanceMm else b;
        var c' := if hop.nextAnchor == 3 then c else hop.distanceMm;
        if hop.next then LaterHopsV2(FinishRangeRest(events), main, b', c') else TerminalV2(hop, main, b', c')
  }

  /** tagRangeInfrastructure_v2's result: main_dist from the first hop, b_dist and c_dist start unset. */
  function InfrastructureV2(events: seq<Event>): Value<RangeInfrastructureResultV2>
  {
    match FinishRangeV2(events)
    case Indeterminate => Indeterminate
    case Known(hop) =>
      if !hop.success then Known(INFRASTRUCTURE_FAILED_V2)
      else if hop.next then LaterHopsV2(FinishRangeRest(events), hop.distanceMm, Indeterminate, Indeterminate)
      else TerminalV2(hop, hop.distanceMm, Indeterminate, Indeterminate)
  }

  /** Without distances, the _v2 chain succeeds exactly when the first version does, with the same rate. */
  lemma {:induction false} LaterHopsV2Agrees(events: seq<Event>, main: Value<nat>, b: Value<nat>, c: Value<nat>)
    ensures LaterHopsV2(events, main, b, c).Known? <==> Infrastructure(events).Known?
    ensures LaterHopsV2(events, main, b, c).Known? ==>
      LaterHopsV2(events, main, b, c).value.success == Infrastructure(events).value.success
      && LaterHopsV2(events, main, b, c).value.newBlinkRate == Infrastructure(events).value.newBlinkRate
    decreases |events|
  {
    FinishRangeV2Extends(events);
    match FinishRangeV2(events)
    case Indeterminate =>
    case Known(hop) =>
      if hop.success && hop.next {
        var b' := if hop.nextAnchor == 3 then hop.distanceMm else b;
        var c' := if hop.nextAnchor == 3 then c else hop.distanceMm;
        LaterHopsV2Agrees(FinishRangeRest(events), main, b', c');
      }
  }

  lemma InfrastructureV2Agrees(events: seq<Event>)
    ensures InfrastructureV2(events).Known? <==> Infrastructure(events).Known?
    ensures InfrastructureV2(events).Known? ==>
      InfrastructureV2(events).value.success == Infrastructure(events).value.success
      && InfrastructureV2(events).value.newBlinkRate == Infrastructure(events).value.newBlinkRate
  {
    FinishRangeV2Extends(events);
    match FinishRangeV2(events)
    case Indeterminate =>
    case Known(hop) =>
      if hop.success && hop.next {
        LaterHopsV2Agrees(FinishRangeRest(events), hop.distanceMm, Indeterminate, Indeterminate);
      }
  }
  /** The _v2 run, too, succeeds only through a last-hop Finished and reports its rate truncated to 16 bits. */
  lemma InfrastructureV2ReportsLastFinished(events: seq<Event>)
    ensures InfrastructureV2(events).Known? && InfrastructureV2(events).value.success ==>
      var last := LastHop(events);
      && ActivityArrives(last) && IsActivityControl(last[1].data) && IsActivityFinished(last[1].data)
      && InfrastructureV2(events).value.newBlinkRate == CalculateNewBlinkRate(last[1].data) % 0x1_0000
  {
    InfrastructureReportsLastFinished(events);
    InfrastructureV2Agrees(events);
  }


  /** A Response then a Confirm_v2 gives the tag the next anchor and the distance it carries. */
  lemma ConfirmV2DrivesTag(events: seq<Event>, sq: byte, sq2: byte, net: seq<byte>, dst: seq<byte>, src: seq<byte>, nextAnchor: uint16, mm: uint16)
    requires |net| == 2 && |dst| == 2 && |src| == 2 && |events| >= 2 && events[0].Frame? && events[1].Frame?
    requires events[0].data == ResponseToPollFrame(sq, net, dst, src)
    requires events[1].data == RangingConfirmNextDistanceFrame(sq2, net, dst, src, WriteValueToBytes(nextAnchor, 2), WriteValueToBytes(mm, 2))
    ensures FinishRangeV2(events) == Known(RangeResultV2(true, true, nextAnchor, 0, Known(mm)))
    ensures FinishRangeRest(events) == events[2..]
  {
    ReadersTellFramesApart(sq, net, dst, src, [0, 0], [0, 0, 0, 0]);
    ConfirmNextDistanceDecodes(sq2, net, dst, src, nextAnchor, mm);
  }

  /** A Response then a Finished_v2 gives the tag the blink rate and the distance it carries. */
  lemma FinishedV2DrivesTag(events: seq<Event>, sq: byte, sq2: byte, net: seq<byte>, dst: seq<byte>, src: seq<byte>, rate: seq<byte>, mm: uint16)
    requires |net| == 2 && |dst| == 2 && |src| == 2 && |rate| == 2 && |events| >= 2 && events[0].Frame? && events[1].Frame?
    requires events[0].data == ResponseToPollFrame(sq, net, dst, src)
    requires events[1].data == ActivityFinishedDistanceFrame(sq2, net, dst, src, rate, WriteValueToBytes(mm, 2))
    ensures FinishRangeV2(events) == Known(RangeResultV2(true, false, 0, CalculateNewBlinkRate(events[1].data), Known(mm)))
    ensures FinishRangeRest(events) == events[2..]
  {
    ReadersTellFramesApart(sq, net, dst, src, rate, [0, 0, 0, 0]);
    DistancePayloadsDecode(sq2, net, dst, src, rate, mm);
  }

  /**
   * Three anchors answering with transmitRangingConfirm_v2 / transmitActivityFinished_v2: the main
   * distance comes from the first, b_dist from the hop that names anchor 3, c_dist from the last.
   */
  lemma ThreeAnchorDistances(events: seq<Event>, net: seq<byte>, tag: seq<byte>, src: seq<byte>,
                             rate: seq<byte>, mainMm: uint16, bMm: uint16, cMm: uint16)
    requires |net| == 2 && |tag| == 2 && |src| == 2 && |rate| == 2 && |events| == 6
    requires forall i :: 0 <= i < 6 ==> events[i].Frame?
    requires events[0].data == ResponseToPollFrame(0, net, tag, src) && events[2].data == events[0].data && events[4].data == events[0].data
    requires events[1].data == RangingConfirmNextDistanceFrame(0, net, tag, src, WriteValueToBytes(3, 2), WriteValueToBytes(mainMm, 2))
    requires events[3].data == RangingConfirmNextDistanceFrame(0, net, tag, src, WriteValueToBytes(3, 2), WriteValueToBytes(bMm, 2))
    requires events[5].data == ActivityFinishedDistanceFrame(0, net, tag, src, rate, WriteValueToBytes(cMm, 2))
    requires CalculateNewBlinkRate(events[5].data) != 0
    ensures InfrastructureV2(events) == Known(RangeInfrastructureResultV2(
      true, CalculateNewBlinkRate(events[5].data) % 0x1_0000, Known(mainMm), Known(bMm), Known(cMm)))
  {
    var e2, e4 := events[2..], events[4..];
    assert e2[2..] == e4;
    ConfirmV2DrivesTag(events, 0, 0, net, tag, src, 3, mainMm);
    ConfirmV2DrivesTag(e2, 0, 0, net, tag, src, 3, bMm);
    FinishedV2DrivesTag(e4, 0, 0, net, tag, src, rate, cMm);
    assert InfrastructureV2(events) == LaterHopsV2(e2, Known(mainMm), Indeterminate, Indeterminate);
    assert LaterHopsV2(e2, Known(mainMm), Indeterminate, Indeterminate) == LaterHopsV2(e4, Known(mainMm), Known(bMm), Indeterminate);
  }

  /* ---------- Tag: localisation ---------- */

  /** tagTwrLocalize: a range request, then infrastructure ranging from the target it names. */
  function Localize(events: seq<Event>): (r: Value<RangeInfrastructureResult>)
    ensures !InitiationArrives(events) ==> r == Known(INFRASTRUCTURE_FAILED)
    ensures r.Known? && r.value.success ==> r == Infrastructure(Rest(events))
  {
    if !RangeRequest(events).success then Known(INFRASTRUCTURE_FAILED)
    else match Infrastructure(Rest(events))
      case Indeterminate => Indeterminate
      case Known(result) => if result.success then Known(result) else Known(INFRASTRUCTURE_FAILED)
  }

  /** tagTwrLocalize_v2. */
  function LocalizeV2(events: seq<Event>): (r: Value<RangeInfrastructureResultV2>)
    ensures !InitiationArrives(events) ==> r == Known(INFRASTRUCTURE_FAILED_V2)
    ensures r.Known? && r.value.success ==> r == InfrastructureV2(Rest(events))
  {
    if !RangeRequest(events).success then Known(INFRASTRUCTURE_FAILED_V2)
    else match InfrastructureV2(Rest(events))
      case Indeterminate => Indeterminate
      case Known(result) => if result.success then Known(result) else Known(INFRASTRUCTURE_FAILED_V2)
  }

  /** Any failure of the ranging is reported as the one failure record. */
  lemma LocalizeFailureIsUniform(events: seq<Event>)
    ensures Localize(events).Known? && !Localize(events).value.success ==> Localize(events) == Known(INFRASTRUCTURE_FAILED)
    ensures LocalizeV2(events).Known? && !LocalizeV2(events).value.success ==> LocalizeV2(events) == Known(INFRASTRUCTURE_FAILED_V2)
  {}

  /* ---------- Tag: single distance request ---------- */

  /** Tag_Distance_Request's cap: more than 65 m (65000 mm) reads as 0. */
  function CapDistance(mm: Value<nat>): (r: Value<nat>)
    ensures r.Known? <==> mm.Known?
    ensures r.Known? ==> r.value <= 65000 && (mm.value <= 65000 ==> r.value == mm.value) && (mm.value > 65000 ==> r.value == 0)
  {
    match mm
    case Known(v) => Known(if v > 65000 then 0 else v)
    case Indeterminate => Indeterminate
  }

  /** Tag_Distance_Request's verdict on the frame that follows its Final. */
  function DistanceVerdict(a: seq<byte>): (r: Value<DistanceResult>)
    ensures r == Known(DISTANCE_FAILED) <==> !IsActivityControl(a)
  {
    if !IsActivityControl(a) then Known(DISTANCE_FAILED)
    else if IsRangingConfirm(a) then Known(DistanceResult(true, CapDistance(Field(a, 13, 2))))
    else Indeterminate
  }

  /** Tag_Distance_Request's result, once the Poll is out. */
  function DistanceRequest(events: seq<Event>): (r: Value<DistanceResult>)
    ensures r.Known? && r.value.success <==> ActivityArrives(events) && IsActivityControl(events[1].data) && IsRangingConfirm(events[1].data)
    ensures r.Known? && r.value.success ==> r.value.distanceMm == CapDistance(Field(events[1].data, 13, 2))
    ensures r.Known? && !r.value.success ==> r == Known(DISTANCE_FAILED)
  {
    if !ActivityArrives(events) then Known(DISTANCE_FAILED) else DistanceVerdict(events[1].data)
  }

  /** An Anchor_Distance_Response reply (Response, then Confirm_v2 with the distance) reads back as that distance. */
  lemma DistanceRoundTrip(events: seq<Event>, sq: byte, sq2: byte, net: seq<byte>, dst: seq<byte>, src: seq<byte>, mm: uint16)
    requires |net| == 2 && |dst| == 2 && |src| == 2 && |events| >= 2 && events[0].Frame? && events[1].Frame?
    requires events[0].data == ResponseToPollFrame(sq, net, dst, src)
    requires events[1].data == RangingConfirmNextDistanceFrame(sq2, net, dst, src, [0, 0], WriteValueToBytes(mm, 2))
    ensures DistanceRequest(events) == Known(DistanceResult(true, Known(if mm > 65000 then 0 else mm)))
  {
    ReadersTellFramesApart(sq, net, dst, src, [0, 0], [0, 0, 0, 0]);
    DistancePayloadsDecode(sq2, net, dst, src, [0, 0], mm);
  }

  /** A 13-byte Confirm (transmitRangingConfirm) holds no distance: the tag succeeds with it undetermined. */
  lemma ShortConfirmDistanceUnknown(events: seq<Event>, sq: byte, sq2: byte, net: seq<byte>, dst: seq<byte>, src: seq<byte>, next: seq<byte>)
    requires |net| == 2 && |dst| == 2 && |src| == 2 && |next| == 2 && |events| >= 2 && events[0].Frame? && events[1].Frame?
    requires events[0].data == ResponseToPollFrame(sq, net, dst, src)
    requires events[1].data == RangingConfirmFrame(sq2, net, dst, src, next)
    ensures DistanceRequest(events) == Known(DistanceResult(true, Indeterminate))
  {
    ReadersTellFramesApart(sq, net, dst, src, next, [0, 0, 0, 0]);
    ReadersTellFramesApart(sq2, net, dst, src, next, [0, 0, 0, 0]);
  }

  /* ---------- Anchor ---------- */

  /** How far an anchor gets through a Poll/Final exchange, with what it received. */
  datatype AcceptStage =
    | NoPoll
    | BadPoll
    | NoFinal(poll: seq<byte>)
    | BadFinal(poll: seq<byte>)
    | FinalReceived(poll: seq<byte>, pollRx: nat, final: seq<byte>, finalRx: nat)

  /** The anchor routines' progress over the script: Poll check (length > 9, byte 9), then Final check (length > 18, byte 9). */
  function Accept(events: seq<Event>): (st: AcceptStage)
    ensures st.NoFinal? || st.BadFinal? || st.FinalReceived? ==> Arrives(events) && IsPoll(st.poll) && st.poll == events[0].data
    ensures st.FinalReceived? ==> Arrives(events[1..]) && IsFinal(st.final) && st.final == events[1].data
  {
    if !Arrives(events) then NoPoll
    else if !IsPoll(events[0].data) then BadPoll
    else if !Arrives(events[1..]) then NoFinal(events[0].data)
    else if !IsFinal(events[1].data) then BadFinal(events[0].data)
    else FinalReceived(events[0].data, events[0].rxTime, events[1].data, events[1].rxTime)
  }

  /** Only a timeout yields a determinate failure; a frame that fails a check leaves the result unset. */
  lemma AcceptStageCases(events: seq<Event>)
    ensures Accept(events).NoPoll? <==> !Arrives(events)
    ensures Accept(events).BadPoll? <==> Arrives(events) && !IsPoll(events[0].data)
    ensures Accept(events).NoFinal? <==> Arrives(events) && IsPoll(events[0].data) && !Arrives(events[1..])
    ensures Accept(events).BadFinal? <==> Arrives(events) && IsPoll(events[0].data) && Arrives(events[1..]) && !IsFinal(events[1].data)
  {}

  /** The inputs of computeRangeAsymmetric: three read from the Final, three the anchor measured. */
  datatype RangeInputs = RangeInputs(
    pollSent: Value<nat>, pollReceived: nat, responseSent: nat,
    responseReceived: Value<nat>, finalSent: Value<nat>, finalReceived: nat)

  /** The range inputs, reading the Final's timestamps width bytes wide (LENGTH_TIMESTAMP). */
  function RangeInputsOf(final: seq<byte>, width: nat, pollRx: nat, responseSent: nat, finalRx: nat): (r: RangeInputs)
    ensures r.pollReceived == pollRx && r.responseSent == responseSent && r.finalReceived == finalRx
    ensures width <= 4 && |final| >= 22 ==> r.pollSent.Known? && r.responseReceived.Known? && r.finalSent.Known?
  {
    RangeInputs(Field(final, 10, width), pollRx, responseSent, Field(final, 14, width), Field(final, 18, width), finalRx)
  }

  /** The guard against a non-positive range after correctRange. */
  function Clamp(range: real): (c: real)
    ensures c > 0.0
    ensures range > 0.0 ==> c == range
    ensures range <= 0.0 ==> c == 0.000001
  {
    if range <= 0.0 then 0.000001 else range
  }
}
