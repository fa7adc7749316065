/**
 * The libusb-based host side of the CAN-FD driver generation: a device object
 * that assembles control transfers in a fixed 64-byte buffer and bulk-out
 * transfers in a growable buffer. Submitting a transfer and waiting for its
 * callback are outside the model: the submission status and the bytes the
 * device answers with are parameters.
 */
module Driver {
  import opened Bytes
  import opened Wrappers
  import opened UsbSetup
  import GsUsb

  /** Size of the control transfer buffer. */
  const CTRL_BUF_SIZE: nat := 64
  /** Size of each bulk-in transfer buffer. */
  const BULK_IN_BUF_SIZE: nat := 76
  /** The largest payload a control transfer can carry after the setup packet. */
  const CTRL_PAYLOAD_MAX: nat := CTRL_BUF_SIZE - SETUP_SIZE
  /** libusb's success status. */
  const LIBUSB_SUCCESS: int := 0

  datatype Error =
    | LibusbError(call: string, code: int)
    | DeviceNotFound
    | TransferAllocFailed
    | InvalidControlResponse

  /**
   * The whole control buffer after a request is filled in: the setup header,
   * the payload, and zeros up to 64 bytes.
   */
  function ControlBuffer(requestType: byte, request: byte, value: u16, index: u16, data: seq<byte>): seq<byte>
    requires |data| <= CTRL_PAYLOAD_MAX
  {
    SetupHeader(requestType, request, value, index, |data|) + data + Zeros(CTRL_PAYLOAD_MAX - |data|)
  }

  /**
   * The buffer is 64 bytes; it starts with a setup packet whose fields are the
   * request type, request, value, index and the payload length; the payload
   * follows it; every later byte is zero.
   */
  lemma {:induction false} ControlBufferLayout(requestType: byte, request: byte, value: u16, index: u16, data: seq<byte>)
    requires |data| <= CTRL_PAYLOAD_MAX
    ensures |ControlBuffer(requestType, request, value, index, data)| == CTRL_BUF_SIZE
    ensures ControlBuffer(requestType, request, value, index, data)[0] == requestType
    ensures ControlBuffer(requestType, request, value, index, data)[1] == request
    ensures ParseSetup(ControlBuffer(requestType, request, value, index, data))
         == Setup(requestType, request, value, index, |data|)
    ensures ControlBuffer(requestType, request, value, index, data)[SETUP_SIZE..SETUP_SIZE + |data|] == data
    ensures forall k :: SETUP_SIZE + |data| <= k < CTRL_BUF_SIZE ==>
              ControlBuffer(requestType, request, value, index, data)[k] == 0
  {
    var cb := ControlBuffer(requestType, request, value, index, data);
    var header := SetupHeader(requestType, request, value, index, |data|);
    SetupHeaderParses(requestType, request, value, index, |data|);
    assert cb[..SETUP_SIZE] == header;
    assert ParseSetup(cb) == ParseSetup(header);
    forall k | SETUP_SIZE + |data| <= k < CTRL_BUF_SIZE
      ensures cb[k] == 0
    {
      assert cb[k] == Zeros(CTRL_PAYLOAD_MAX - |data|)[k - SETUP_SIZE - |data|];
    }
  }

  /** What `get_timestamp` returns for a submission status and the device's reply. */
  function TimestampResult(submitStatus: int, reply: seq<byte>): (r: Result<u32, Error>)
    ensures r.Ok? <==> submitStatus == LIBUSB_SUCCESS && |reply| >= 4
    ensures r.Ok? ==> U32Le(r.value) == reply[..4]
    ensures submitStatus != LIBUSB_SUCCESS ==> r.Err? && r.error.LibusbError? && r.error.code == submitStatus
  {
    if submitStatus != LIBUSB_SUCCESS then Err(LibusbError("control_in: libusb_submit_transfer", submitStatus))
    else if |reply| < 4 then Err(InvalidControlResponse)
    else
      U32FromLeInverse(reply);
      Ok(U32FromLe(reply))
  }

  /**
   * When the device answers with the four little-endian bytes of a timestamp,
   * the host reads that timestamp; a short answer is an error.
   */
  lemma TimestampDecodesReply(t: u32, reply: seq<byte>)
    requires |reply| < 4
    ensures TimestampResult(LIBUSB_SUCCESS, U32Le(t)) == Ok(t)
    ensures TimestampResult(LIBUSB_SUCCESS, reply) == Err(InvalidControlResponse)
  {
    U32RoundTrip(t);
  }

  /** libusb's transfer status for a completed transfer. */
  const LIBUSB_TRANSFER_COMPLETED: int := 0
  /** libusb's transfer status for a cancelled transfer. */
  const LIBUSB_TRANSFER_CANCELLED: int := 3

  /** What the bulk-in callback does with a finished transfer. */
  datatype BulkInOutcome = BulkInOutcome(received: Option<GsUsb.HostFrame>, resubmit: bool)

  /**
   * The bulk-in callback: a completed transfer's whole buffer is decoded as one
   * host frame and forwarded; every transfer but a cancelled one is resubmitted.
   * The decoded frame accounts for every byte of the buffer.
   */
  function BulkInCallback(status: int, buffer: seq<byte>): (o: BulkInOutcome)
    requires |buffer| == BULK_IN_BUF_SIZE
    ensures o.received.Some? <==> status == LIBUSB_TRANSFER_COMPLETED
    ensures o.received.Some? ==> GsUsb.HostFrameBytes(o.received.value) == buffer
    ensures o.resubmit <==> status != LIBUSB_TRANSFER_CANCELLED
  {
    var received :=
      if status == LIBUSB_TRANSFER_COMPLETED then
        var f := GsUsb.DecodeHostFrame(buffer);
        assert f.data == f.data[..GsUsb.FD_DATA_SIZE];
        assert buffer == buffer[0..4] + buffer[4..8] + buffer[8..12] + buffer[12..];
        Some(f)
      else None;
    BulkInOutcome(received, status != LIBUSB_TRANSFER_CANCELLED)
  }

  /**
   * A bulk-in buffer holds exactly one 76-byte host frame: the callback
   * forwards the very frame the device encoded into it.
   */
  lemma BulkInBufferHoldsOneFrame(f: GsUsb.HostFrame)
    ensures |GsUsb.HostFrameBytes(f)| == BULK_IN_BUF_SIZE
    ensures BulkInCallback(LIBUSB_TRANSFER_COMPLETED, GsUsb.HostFrameBytes(f)).received == Some(f)
  {
    GsUsb.HostFrameRoundTrip(f);
  }

  class Device {
    /** The buffer of the control transfer. */
    var ctrlBuf: array<byte>
    /** The buffer of the bulk-out transfer. */
    var outBuf: seq<byte>

    ghost predicate Valid()
      reads this
    {
      ctrlBuf.Length == CTRL_BUF_SIZE
    }

    /** The buffers as `Device::new` initialises them. */
    constructor ()
      ensures Valid() && fresh(ctrlBuf)
      ensures ctrlBuf[..] == Zeros(CTRL_BUF_SIZE) && outBuf == []
    {
      ctrlBuf := new byte[CTRL_BUF_SIZE](_ => 0);
      outBuf := [];
    }

    /**
     * Clears the control buffer, writes the setup packet byte by byte, then
     * copies the payload behind it. A payload over 56 bytes makes the copy's
     * slice out of range.
     */
    method FillControlTransfer(requestType: byte, request: byte, value: u16, index: u16, data: seq<byte>)
      requires Valid()
      requires |data| <= CTRL_PAYLOAD_MAX
      modifies ctrlBuf
      ensures ctrlBuf[..] == ControlBuffer(requestType, request, value, index, data)
    {
      forall k | 0 <= k < ctrlBuf.Length {
        ctrlBuf[k] := 0;
      }
      WriteSetup(requestType, request, value, index, |data|);
      ghost var header := SetupHeader(requestType, request, value, index, |data|);
      assert ctrlBuf[..] == header + Zeros(CTRL_PAYLOAD_MAX) by {
        assert ctrlBuf[..] == ctrlBuf[..SETUP_SIZE] + ctrlBuf[SETUP_SIZE..];
      }
      for i := 0 to |data|
        invariant ctrlBuf[..] == header + data[..i] + Zeros(CTRL_PAYLOAD_MAX - i)
      {
        ctrlBuf[SETUP_SIZE + i] := data[i];
      }
      assert data[..|data|] == data;
    }

    /** Writes the eight setup bytes at the front of the buffer, one by one. */
    method WriteSetup(requestType: byte, request: byte, value: u16, index: u16, len: nat)
      requires Valid()
      modifies ctrlBuf
      ensures ctrlBuf[..SETUP_SIZE] == SetupHeader(requestType, request, value, index, len)
      ensures ctrlBuf[SETUP_SIZE..] == old(ctrlBuf[SETUP_SIZE..])
    {
      ctrlBuf[0] := requestType;
      ctrlBuf[1] := request;
      ctrlBuf[2] := value % 0x100;
      ctrlBuf[3] := value / 0x100;
      ctrlBuf[4] := index % 0x100;
      ctrlBuf[5] := index / 0x100;
      ctrlBuf[6] := len % 0x100;
      ctrlBuf[7] := len / 0x100 % 0x100;
    }

    /**
     * The device's answer to an IN request landing in the buffer right after
     * the setup packet (done by libusb, not by the host code).
     */
    method ReceiveReply(reply: seq<byte>)
      requires Valid()
      requires SETUP_SIZE + |reply| <= CTRL_BUF_SIZE
      modifies ctrlBuf
      ensures ctrlBuf[..] == old(ctrlBuf[..SETUP_SIZE]) + reply + old(ctrlBuf[SETUP_SIZE + |reply|..])
    {
      for i := 0 to |reply|
        invariant ctrlBuf[..] == old(ctrlBuf[..SETUP_SIZE]) + reply[..i] + old(ctrlBuf[SETUP_SIZE + i..])
      {
        ctrlBuf[SETUP_SIZE + i] := reply[i];
      }
      assert reply[..|reply|] == reply;
    }

    /** A vendor OUT request to an interface, with the channel as wValue and wIndex 0. */
    method ControlOut(req: GsUsb.UsbBreq, channel: u16, data: seq<byte>, submitStatus: int)
      returns (r: Result<Unit, Error>)
      requires Valid()
      requires |data| <= CTRL_PAYLOAD_MAX
      modifies ctrlBuf
      ensures ctrlBuf[..] == ControlBuffer(VENDOR_INTERFACE_OUT, GsUsb.BreqCode(req), channel, 0, data)
      ensures r == if submitStatus == LIBUSB_SUCCESS then Ok(Unit)
                   else Err(LibusbError("control_out: libusb_submit_transfer", submitStatus))
    {
      FillControlTransfer(VENDOR_INTERFACE_OUT, GsUsb.BreqCode(req), channel, 0, data);
      if submitStatus != LIBUSB_SUCCESS {
        return Err(LibusbError("control_out: libusb_submit_transfer", submitStatus));
      }
      r := Ok(Unit);
    }

    /**
     * A vendor IN request for `len` bytes. The payload area is zeroed, the
     * device's reply (never longer than the requested wLength) lands in it, and
     * a reply shorter than `len` is an error; otherwise the reply is returned.
     */
    method ControlIn(req: GsUsb.UsbBreq, channel: u16, len: nat, submitStatus: int, reply: seq<byte>)
      returns (r: Result<seq<byte>, Error>)
      requires Valid()
      requires len <= CTRL_PAYLOAD_MAX
      requires |reply| <= len
      modifies ctrlBuf
      ensures submitStatus != LIBUSB_SUCCESS ==>
                && r == Err(LibusbError("control_in: libusb_submit_transfer", submitStatus))
                && ctrlBuf[..] == ControlBuffer(VENDOR_INTERFACE_IN, GsUsb.BreqCode(req), channel, 0, Zeros(len))
      ensures submitStatus == LIBUSB_SUCCESS ==>
                && ctrlBuf[..] == ControlBuffer(VENDOR_INTERFACE_IN, GsUsb.BreqCode(req), channel, 0,
                                                reply + Zeros(len - |reply|))
                && r == (if |reply| < len then Err(InvalidControlResponse) else Ok(reply))
    {
      FillControlTransfer(VENDOR_INTERFACE_IN, GsUsb.BreqCode(req), channel, 0, Zeros(len));
      if submitStatus != LIBUSB_SUCCESS {
        return Err(LibusbError("control_in: libusb_submit_transfer", submitStatus));
      }
      ghost var header := SetupHeader(VENDOR_INTERFACE_IN, GsUsb.BreqCode(req), channel, 0, len);
      ReceiveReply(reply);
      assert ctrlBuf[..] == header + reply + Zeros(len - |reply|) + Zeros(CTRL_PAYLOAD_MAX - len);
      var xferLen := |reply|;
      if xferLen < len {
        return Err(InvalidControlResponse);
      }
      assert ctrlBuf[SETUP_SIZE..SETUP_SIZE + xferLen] == reply;
      r := Ok(ctrlBuf[SETUP_SIZE..SETUP_SIZE + xferLen]);
    }

    method SetHostFormat(val: u32, submitStatus: int) returns (r: Result<Unit, Error>)
      requires Valid()
      modifies ctrlBuf
      ensures ctrlBuf[..] == ControlBuffer(VENDOR_INTERFACE_OUT, GsUsb.BreqCode(GsUsb.HostFormat), 0, 0, U32Le(val))
      ensures r == if submitStatus == LIBUSB_SUCCESS then Ok(Unit)
                   else Err(LibusbError("control_out: libusb_submit_transfer", submitStatus))
    {
      r := ControlOut(GsUsb.HostFormat, 0, U32Le(val), submitStatus);
    }

    method SetBitTiming(channel: u16, timing: GsUsb.BitTiming, submitStatus: int) returns (r: Result<Unit, Error>)
      requires Valid()
      modifies ctrlBuf
      ensures ctrlBuf[..] == ControlBuffer(VENDOR_INTERFACE_OUT, GsUsb.BreqCode(GsUsb.UsbBreq.BitTiming), channel, 0,
                                           GsUsb.BitTimingBytes(timing))
      ensures r == if submitStatus == LIBUSB_SUCCESS then Ok(Unit)
                   else Err(LibusbError("control_out: libusb_submit_transfer", submitStatus))
    {
      var bytes := GsUsb.BitTimingToLeBytes(timing);
      r := ControlOut(GsUsb.UsbBreq.BitTiming, channel, bytes, submitStatus);
    }

    method SetDataBitTiming(channel: u16, timing: GsUsb.BitTiming, submitStatus: int) returns (r: Result<Unit, Error>)
      requires Valid()
      modifies ctrlBuf
      ensures ctrlBuf[..] == ControlBuffer(VENDOR_INTERFACE_OUT, GsUsb.BreqCode(GsUsb.DataBitTiming), channel, 0,
                                           GsUsb.BitTimingBytes(timing))
      ensures r == if submitStatus == LIBUSB_SUCCESS then Ok(Unit)
                   else Err(LibusbError("control_out: libusb_submit_transfer", submitStatus))
    {
      var bytes := GsUsb.BitTimingToLeBytes(timing);
      r := ControlOut(GsUsb.DataBitTiming, channel, bytes, submitStatus);
    }

    method SetMode(channel: u16, deviceMode: GsUsb.Mode, submitStatus: int) returns (r: Result<Unit, Error>)
      requires Valid()
      modifies ctrlBuf
      ensures ctrlBuf[..] == ControlBuffer(VENDOR_INTERFACE_OUT, GsUsb.BreqCode(GsUsb.UsbBreq.Mode), channel, 0,
                                           GsUsb.ModeBytes(deviceMode))
      ensures r == if submitStatus == LIBUSB_SUCCESS then Ok(Unit)
                   else Err(LibusbError("control_out: libusb_submit_transfer", submitStatus))
    {
      var bytes := GsUsb.ModeToLeBytes(deviceMode);
      r := ControlOut(GsUsb.UsbBreq.Mode, channel, bytes, submitStatus);
    }

    method SetIdentify(val: u32, submitStatus: int) returns (r: Result<Unit, Error>)
      requires Valid()
      modifies ctrlBuf
      ensures ctrlBuf[..] == ControlBuffer(VENDOR_INTERFACE_OUT, GsUsb.BreqCode(GsUsb.Identify), 0, 0, U32Le(val))
      ensures r == if submitStatus == LIBUSB_SUCCESS then Ok(Unit)
                   else Err(LibusbError("control_out: libusb_submit_transfer", submitStatus))
    {
      r := ControlOut(GsUsb.Identify, 0, U32Le(val), submitStatus);
    }

    method SetBerr(val: u32, submitStatus: int) returns (r: Result<Unit, Error>)
      requires Valid()
      modifies ctrlBuf
      ensures ctrlBuf[..] == ControlBuffer(VENDOR_INTERFACE_OUT, GsUsb.BreqCode(GsUsb.Berr), 0, 0, U32Le(val))
      ensures r == if submitStatus == LIBUSB_SUCCESS then Ok(Unit)
                   else Err(LibusbError("control_out: libusb_submit_transfer", submitStatus))
    {
      r := ControlOut(GsUsb.Berr, 0, U32Le(val), submitStatus);
    }

    /** Requests the 12-byte device configuration and decodes the reply. */
    method GetDeviceConfig(submitStatus: int, reply: seq<byte>) returns (r: Result<GsUsb.DeviceConfig, Error>)
      requires Valid()
      requires |reply| <= 12
      modifies ctrlBuf
      ensures submitStatus != LIBUSB_SUCCESS ==> r == Err(LibusbError("control_in: libusb_submit_transfer", submitStatus))
      ensures submitStatus == LIBUSB_SUCCESS && |reply| < 12 ==> r == Err(InvalidControlResponse)
      ensures submitStatus == LIBUSB_SUCCESS && |reply| == 12 ==> r == Ok(GsUsb.DecodeDeviceConfig(reply))
      ensures ctrlBuf[..] == ControlBuffer(VENDOR_INTERFACE_IN, GsUsb.BreqCode(GsUsb.UsbBreq.DeviceConfig), 0, 0,
                                           if submitStatus == LIBUSB_SUCCESS then reply + Zeros(12 - |reply|) else Zeros(12))
    {
      var data :- ControlIn(GsUsb.UsbBreq.DeviceConfig, 0, 12, submitStatus, reply);
      r := Ok(GsUsb.DecodeDeviceConfig(data));
    }

    /** Requests the 40-byte bit-timing constants and decodes the reply. */
    method GetBitTimingConsts(submitStatus: int, reply: seq<byte>) returns (r: Result<GsUsb.BitTimingConsts, Error>)
      requires Valid()
      requires |reply| <= 40
      modifies ctrlBuf
      ensures submitStatus != LIBUSB_SUCCESS ==> r == Err(LibusbError("control_in: libusb_submit_transfer", submitStatus))
      ensures submitStatus == LIBUSB_SUCCESS && |reply| < 40 ==> r == Err(InvalidControlResponse)
      ensures submitStatus == LIBUSB_SUCCESS && |reply| == 40 ==> r == Ok(GsUsb.DecodeBitTimingConsts(reply))
      ensures ctrlBuf[..] == ControlBuffer(VENDOR_INTERFACE_IN, GsUsb.BreqCode(GsUsb.UsbBreq.BitTimingConsts), 0, 0,
                                           if submitStatus == LIBUSB_SUCCESS then reply + Zeros(40 - |reply|) else Zeros(40))
    {
      var data :- ControlIn(GsUsb.UsbBreq.BitTimingConsts, 0, 40, submitStatus, reply);
      r := Ok(GsUsb.DecodeBitTimingConsts(data));
    }

    /** Requests the device's 32-bit timestamp and decodes its first four bytes. */
    method GetTimestamp(submitStatus: int, reply: seq<byte>) returns (r: Result<u32, Error>)
      requires Valid()
      requires |reply| <= 4
      modifies ctrlBuf
      ensures r == TimestampResult(submitStatus, reply)
      ensures ctrlBuf[..] == ControlBuffer(VENDOR_INTERFACE_IN, GsUsb.BreqCode(GsUsb.Timestamp), 0, 0,
                                           if submitStatus == LIBUSB_SUCCESS then reply + Zeros(4 - |reply|) else Zeros(4))
    {
      var data :- ControlIn(GsUsb.Timestamp, 0, 4, submitStatus, reply);
      var bytes := [data[0], data[1], data[2], data[3]];
      r := Ok(U32FromLe(bytes));
    }

    /** Replaces the bulk-out buffer by the encoding of `frame` and submits it. */
    method Send(frame: GsUsb.HostFrame, submitStatus: int) returns (r: Result<Unit, Error>)
      modifies this`outBuf
      ensures outBuf == GsUsb.HostFrameBytes(frame)
      ensures |outBuf| == GsUsb.HOST_FRAME_SIZE
      ensures r == if submitStatus == LIBUSB_SUCCESS then Ok(Unit)
                   else Err(LibusbError("send: libusb_submit_transfer", submitStatus))
    {
      outBuf := [];
      var bytes := GsUsb.HostFrameToLeBytes(frame);
      outBuf := outBuf + bytes;
      GsUsb.HostFrameLayout(frame);
      if submitStatus != LIBUSB_SUCCESS {
        return Err(LibusbError("send: libusb_submit_transfer", submitStatus));
      }
      r := Ok(Unit);
    }
  }
}
