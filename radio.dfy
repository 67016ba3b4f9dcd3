/**
 * The slice of the DW1000 driver (DW1000Jang) the RTLS layer calls, as a scripted radio.
 *
 * Frames handed to startTransmit are appended to a log together with their transmit mode. What
 * the radio receives is a script of events, each a frame with its receive timestamp or a
 * timeout; the tx timestamps the radio reports after each completed transmission are a second
 * script. The system clock is a constant.
 */
module Driver {
  import opened Bytes

  datatype Mode = Immediate | Delayed

  /** One startTransmit: the tx buffer's contents at that moment and the mode. */
  datatype Transmission = Transmission(data: seq<byte>, mode: Mode)

  /** One reception attempt as the radio sees it: a frame with its rx timestamp, or a timeout. */
  datatype Event = Frame(data: seq<byte>, rxTime: nat) | Timeout

  type Eui = s: seq<byte> | |s| == 8 witness [0, 0, 0, 0, 0, 0, 0, 0]

  /** The next reception attempt delivers a frame. An exhausted script behaves as a timeout. */
  predicate Arrives(events: seq<Event>)
  {
    events != [] && events[0].Frame?
  }

  /** The script after one reception attempt. */
  function Rest(events: seq<Event>): seq<Event>
  {
    if events == [] then [] else events[1..]
  }

  /** The tx timestamp after a transmission completes: the next scripted one, if there is one. */
  function NextTxTime(txTimes: seq<nat>, current: nat): nat
  {
    if txTimes == [] then current else txTimes[0]
  }

  /** memcpy of two bytes into an array at an offset. */
  method Put2(a: array<byte>, at: nat, v: seq<byte>)
    requires |v| == 2 && at + 2 <= a.Length
    modifies a
    ensures a[at] == v[0] && a[at + 1] == v[1]
    ensures forall i | 0 <= i < a.Length && (i < at || at + 2 <= i) :: a[i] == old(a[i])
  {
    a[at] := v[0];
    a[at + 1] := v[1];
  }

  /** memcpy of four bytes into an array at an offset. */
  method Put4(a: array<byte>, at: nat, v: seq<byte>)
    requires |v| == 4 && at + 4 <= a.Length
    modifies a
    ensures a[at] == v[0] && a[at + 1] == v[1] && a[at + 2] == v[2] && a[at + 3] == v[3]
    ensures forall i | 0 <= i < a.Length && (i < at || at + 4 <= i) :: a[i] == old(a[i])
  {
    a[at] := v[0];
    a[at + 1] := v[1];
    a[at + 2] := v[2];
    a[at + 3] := v[3];
  }

  /** memcpy of eight bytes into an array at an offset. */
  method Put8(a: array<byte>, at: nat, v: seq<byte>)
    requires |v| == 8 && at + 8 <= a.Length
    modifies a
    ensures forall k | 0 <= k < 8 :: a[at + k] == v[k]
    ensures forall i | 0 <= i < a.Length && (i < at || at + 8 <= i) :: a[i] == old(a[i])
  {
    a[at] := v[0];
    a[at + 1] := v[1];
    a[at + 2] := v[2];
    a[at + 3] := v[3];
    a[at + 4] := v[4];
    a[at + 5] := v[5];
    a[at + 6] := v[6];
    a[at + 7] := v[7];
  }

  class Radio {
    /** The transmit buffer (setTransmitData). */
    var txData: seq<byte>
    /** Every startTransmit so far, oldest first. */
    var txLog: seq<Transmission>
    /** The delayed-TRX register, as the bytes last given to setDelayedTRX. */
    var delayedTrx: seq<byte>
    var deviceAddress: uint16
    /** The reception attempts still to come. */
    var incoming: seq<Event>
    /** The last received frame and its rx timestamp (getReceivedData, getReceiveTimestamp). */
    var rxData: seq<byte>
    var rxTimestamp: nat
    /** The mode of every startReceive so far. */
    var rxLog: seq<Mode>
    /** The tx timestamps of the transmissions still to complete, and the last one (getTransmitTimestamp). */
    var txTimes: seq<nat>
    var txTimestamp: nat

    const eui: Eui
    const networkId: uint16
    const txAntennaDelay: nat
    /** getSystemTimestamp; the model's clock does not advance. */
    const systemTimestamp: nat

    constructor(eui: Eui, networkId: uint16, deviceAddress: uint16, txAntennaDelay: nat, systemTimestamp: nat,
                incoming: seq<Event>, txTimes: seq<nat>)
      ensures this.eui == eui && this.networkId == networkId && this.deviceAddress == deviceAddress
      ensures this.txAntennaDelay == txAntennaDelay && this.systemTimestamp == systemTimestamp
      ensures this.incoming == incoming && this.txTimes == txTimes
      ensures txData == [] && txLog == [] && delayedTrx == [] && rxData == [] && rxLog == []
      ensures rxTimestamp == 0 && txTimestamp == 0
    {
      this.eui := eui;
      this.networkId := networkId;
      this.deviceAddress := deviceAddress;
      this.txAntennaDelay := txAntennaDelay;
      this.systemTimestamp := systemTimestamp;
      this.incoming := incoming;
      this.txTimes := txTimes;
      txData := [];
      txLog := [];
      delayedTrx := [];
      rxData := [];
      rxLog := [];
      rxTimestamp := 0;
      txTimestamp := 0;
    }

    /** The two bytes getNetworkId copies out. */
    function NetworkIdBytes(): (r: seq<byte>)
      ensures |r| == 2
    {
      WriteValueToBytes(networkId, 2)
    }

    /** The two bytes getDeviceAddress copies out. */
    function DeviceAddressBytes(): (r: seq<byte>)
      reads this`deviceAddress
      ensures |r| == 2
    {
      WriteValueToBytes(deviceAddress, 2)
    }

    /** Since the pre-state: setTransmitData(frame) then one startTransmit in the given mode. */
    twostate predicate Sent(frame: seq<byte>, mode: Mode)
      reads this
    {
      txData == frame && txLog == old(txLog) + [Transmission(frame, mode)]
    }

    /** Since the pre-state: one reception attempt in the given mode, with the outcome the script dictates. */
    twostate predicate Received(mode: Mode, received: bool)
      reads this
    {
      && received == Arrives(old(incoming))
      && incoming == Rest(old(incoming)) && rxLog == old(rxLog) + [mode]
      && (received ==> rxData == old(incoming)[0].data && rxTimestamp == old(incoming)[0].rxTime)
      && (!received ==> rxData == old(rxData) && rxTimestamp == old(rxTimestamp))
    }

    method GetNetworkId(a: array<byte>, at: nat)
      requires at + 2 <= a.Length
      modifies a
      ensures a[at] == NetworkIdBytes()[0] && a[at + 1] == NetworkIdBytes()[1]
      ensures forall i | 0 <= i < a.Length && (i < at || at + 2 <= i) :: a[i] == old(a[i])
    {
      Put2(a, at, NetworkIdBytes());
    }

    method GetDeviceAddress(a: array<byte>, at: nat)
      requires at + 2 <= a.Length
      modifies a
      ensures a[at] == DeviceAddressBytes()[0] && a[at + 1] == DeviceAddressBytes()[1]
      ensures forall i | 0 <= i < a.Length && (i < at || at + 2 <= i) :: a[i] == old(a[i])
    {
      Put2(a, at, DeviceAddressBytes());
    }

    method GetEui(a: array<byte>, at: nat)
      requires at + 8 <= a.Length
      modifies a
      ensures forall k | 0 <= k < 8 :: a[at + k] == eui[k]
      ensures forall i | 0 <= i < a.Length && (i < at || at + 8 <= i) :: a[i] == old(a[i])
    {
      Put8(a, at, eui);
    }

    method SetDeviceAddress(address: uint16)
      modifies this`deviceAddress
      ensures deviceAddress == address
    {
      deviceAddress := address;
    }

    method SetTransmitData(data: seq<byte>)
      modifies this`txData
      ensures txData == data
    {
      txData := data;
    }

    method StartTransmit(mode: Mode)
      modifies this`txLog
      ensures txLog == old(txLog) + [Transmission(txData, mode)]
    {
      txLog := txLog + [Transmission(txData, mode)];
    }

    method SetDelayedTrx(time: seq<byte>)
      modifies this`delayedTrx
      ensures delayedTrx == time
    {
      delayedTrx := time;
    }

    /** isTransmitDone turning true, then clearTransmitStatus: the tx timestamp becomes the next scripted one. */
    method CompleteTransmit()
      modifies this`txTimes, this`txTimestamp
      ensures txTimestamp == NextTxTime(old(txTimes), old(txTimestamp))
      ensures txTimes == if old(txTimes) == [] then [] else old(txTimes)[1..]
    {
      if txTimes != [] {
        txTimestamp := txTimes[0];
        txTimes := txTimes[1..];
      }
    }

    /**
     * startReceive followed by polling isReceiveDone / isReceiveTimeout: true with the frame and
     * its timestamp latched when the next attempt delivers one, false (nothing latched) on a timeout.
     */
    method StartReceive(mode: Mode) returns (received: bool)
      modifies this`incoming, this`rxData, this`rxTimestamp, this`rxLog
      ensures Received(mode, received)
    {
      rxLog := rxLog + [mode];
      received := Arrives(incoming);
      if received {
        rxData := incoming[0].data;
        rxTimestamp := incoming[0].rxTime;
      }
      incoming := Rest(incoming);
    }
  }
}
