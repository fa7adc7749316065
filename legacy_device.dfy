/**
 * The earlier libusb-based host code, whose control buffer is a growable vector
 * that is cleared and refilled for each request. Its gs_usb structures come
 * from a module that is not part of this model, so `Send` takes the frame
 * already encoded.
 */
module Legacy {
  import opened Bytes
  import opened Wrappers
  import opened UsbSetup
  import GsUsb
  import Driver

  const LIBUSB_SUCCESS: int := 0

  datatype Error = LibusbError(code: int) | DeviceNotFound | TransferAllocFailed

  /**
   * What `get_timestamp` returns as written: the caller's zeroed four-byte
   * buffer decoded, whatever the device answered.
   */
  function TimestampResult(submitStatus: int, reply: seq<byte>): (r: Result<u32, Error>)
    ensures r.Ok? <==> submitStatus == LIBUSB_SUCCESS
    ensures r.Ok? ==> r.value == 0
  {
    if submitStatus != LIBUSB_SUCCESS then Err(LibusbError(submitStatus)) else Ok(U32FromLe(Zeros(4)))
  }

  /**
   * The device answers timestamp 0x12345678; this generation reports 0, the
   * later one reports the device's value.
   */
  lemma TimestampDiscardsReply()
    ensures TimestampResult(LIBUSB_SUCCESS, U32Le(0x1234_5678)) == Ok(0)
    ensures Driver.TimestampResult(Driver.LIBUSB_SUCCESS, U32Le(0x1234_5678)) == Ok(0x1234_5678)
  {
    Driver.TimestampDecodesReply(0x1234_5678, []);
  }

  class Device {
    /** The control transfer buffer (a `Vec<u8>`). */
    var ctrlBuf: seq<byte>
    /** The bulk-out transfer buffer (a `Vec<u8>`). */
    var outBuf: seq<byte>

    /** Both buffers start empty. */
    constructor ()
      ensures ctrlBuf == [] && outBuf == []
    {
      ctrlBuf := [];
      outBuf := [];
    }

    /**
     * Builds the eight setup bytes, clears the buffer and appends the setup bytes
     * and then the payload: nothing of an earlier request survives.
     */
    method FillControlTransfer(requestType: byte, request: byte, value: u16, index: u16, data: seq<byte>)
      modifies this`ctrlBuf
      ensures ctrlBuf == SetupHeader(requestType, request, value, index, |data|) + data
      ensures |ctrlBuf| == SETUP_SIZE + |data|
      ensures ctrlBuf[SETUP_SIZE..] == data
    {
      var setup := [requestType, request, value % 0x100, value / 0x100,
                    index % 0x100, index / 0x100, |data| % 0x100, |data| / 0x100 % 0x100];
      ctrlBuf := [];
      ctrlBuf := ctrlBuf + setup;
      ctrlBuf := ctrlBuf + data;
    }

    /** A vendor OUT request: request type 0b0100_0001, wValue the channel, wIndex 0. */
    method ControlOut(req: GsUsb.UsbBreq, channel: u16, data: seq<byte>, submitStatus: int)
      returns (r: Result<Unit, Error>)
      modifies this`ctrlBuf
      ensures ctrlBuf == SetupHeader(VENDOR_INTERFACE_OUT, GsUsb.BreqCode(req), channel, 0, |data|) + data
      ensures r == if submitStatus == LIBUSB_SUCCESS then Ok(Unit) else Err(LibusbError(submitStatus))
    {
      FillControlTransfer(VENDOR_INTERFACE_OUT, GsUsb.BreqCode(req), channel, 0, data);
      if submitStatus != LIBUSB_SUCCESS {
        return Err(LibusbError(submitStatus));
      }
      r := Ok(Unit);
    }

    /**
     * A vendor IN request with request type 0b1100_0001. The device's reply
     * lands in the control buffer after the setup bytes; the caller's buffer is
     * copied into the request but never written back, and success is reported
     * as `Ok(0)`.
     */
    method ControlIn(req: GsUsb.UsbBreq, channel: u16, data: array<byte>, submitStatus: int, reply: seq<byte>)
      returns (r: Result<nat, Error>)
      requires |reply| <= data.Length
      modifies this`ctrlBuf
      ensures submitStatus != LIBUSB_SUCCESS ==>
                && r == Err(LibusbError(submitStatus))
                && ctrlBuf == SetupHeader(VENDOR_INTERFACE_IN, GsUsb.BreqCode(req), channel, 0, data.Length) + data[..]
      ensures submitStatus == LIBUSB_SUCCESS ==>
                && r == Ok(0)
                && ctrlBuf == SetupHeader(VENDOR_INTERFACE_IN, GsUsb.BreqCode(req), channel, 0, data.Length)
                              + reply + data[|reply|..]
    {
      FillControlTransfer(VENDOR_INTERFACE_IN, GsUsb.BreqCode(req), channel, 0, data[..]);
      if submitStatus != LIBUSB_SUCCESS {
        return Err(LibusbError(submitStatus));
      }
      ctrlBuf := ctrlBuf[..SETUP_SIZE] + reply + ctrlBuf[SETUP_SIZE + |reply|..];
      r := Ok(0);
    }

    method SetHostFormat(val: u32, submitStatus: int) returns (r: Result<Unit, Error>)
      modifies this`ctrlBuf
      ensures ctrlBuf == SetupHeader(VENDOR_INTERFACE_OUT, GsUsb.BreqCode(GsUsb.HostFormat), 0, 0, 4) + U32Le(val)
      ensures r == if submitStatus == LIBUSB_SUCCESS then Ok(Unit) else Err(LibusbError(submitStatus))
    {
      r := ControlOut(GsUsb.HostFormat, 0, U32Le(val), submitStatus);
    }

    /** `timing` is the bit timing already encoded by the structure's own encoder. */
    method SetBitTiming(channel: u16, timing: seq<byte>, submitStatus: int) returns (r: Result<Unit, Error>)
      modifies this`ctrlBuf
      ensures ctrlBuf == SetupHeader(VENDOR_INTERFACE_OUT, GsUsb.BreqCode(GsUsb.UsbBreq.BitTiming), channel, 0, |timing|)
                         + timing
      ensures r == if submitStatus == LIBUSB_SUCCESS then Ok(Unit) else Err(LibusbError(submitStatus))
    {
      r := ControlOut(GsUsb.UsbBreq.BitTiming, channel, timing, submitStatus);
    }

    /** `deviceMode` is the mode already encoded by the structure's own encoder. */
    method SetMode(channel: u16, deviceMode: seq<byte>, submitStatus: int) returns (r: Result<Unit, Error>)
      modifies this`ctrlBuf
      ensures ctrlBuf == SetupHeader(VENDOR_INTERFACE_OUT, GsUsb.BreqCode(GsUsb.UsbBreq.Mode), channel, 0, |deviceMode|)
                         + deviceMode
      ensures r == if submitStatus == LIBUSB_SUCCESS then Ok(Unit) else Err(LibusbError(submitStatus))
    {
      r := ControlOut(GsUsb.UsbBreq.Mode, channel, deviceMode, submitStatus);
    }

    method SetIdentify(val: u32, submitStatus: int) returns (r: Result<Unit, Error>)
      modifies this`ctrlBuf
      ensures ctrlBuf == SetupHeader(VENDOR_INTERFACE_OUT, GsUsb.BreqCode(GsUsb.Identify), 0, 0, 4) + U32Le(val)
      ensures r == if submitStatus == LIBUSB_SUCCESS then Ok(Unit) else Err(LibusbError(submitStatus))
    {
      r := ControlOut(GsUsb.Identify, 0, U32Le(val), submitStatus);
    }

    method SetBerr(val: u32, submitStatus: int) returns (r: Result<Unit, Error>)
      modifies this`ctrlBuf
      ensures ctrlBuf == SetupHeader(VENDOR_INTERFACE_OUT, GsUsb.BreqCode(GsUsb.Berr), 0, 0, 4) + U32Le(val)
      ensures r == if submitStatus == LIBUSB_SUCCESS then Ok(Unit) else Err(LibusbError(submitStatus))
    {
      r := ControlOut(GsUsb.Berr, 0, U32Le(val), submitStatus);
    }

    /**
     * Requests the device configuration into a zeroed 12-byte buffer and yields
     * that buffer for decoding: it is still all zeros, whatever the device sent.
     */
    method GetDeviceConfig(submitStatus: int, reply: seq<byte>) returns (r: Result<seq<byte>, Error>)
      requires |reply| <= 12
      modifies this`ctrlBuf
      ensures submitStatus != LIBUSB_SUCCESS ==> r == Err(LibusbError(submitStatus))
      ensures submitStatus == LIBUSB_SUCCESS ==> r == Ok(Zeros(12))
      ensures ctrlBuf == SetupHeader(VENDOR_INTERFACE_IN, GsUsb.BreqCode(GsUsb.UsbBreq.DeviceConfig), 0, 0, 12)
                         + if submitStatus == LIBUSB_SUCCESS then reply + Zeros(12 - |reply|) else Zeros(12)
    {
      var buf := new byte[12](_ => 0);
      assert buf[..] == Zeros(12);
      var n :- ControlIn(GsUsb.UsbBreq.DeviceConfig, 0, buf, submitStatus, reply);
      assert buf[|reply|..] == Zeros(12 - |reply|);
      r := Ok(buf[..]);
    }

    /**
     * Requests the bit-timing constants into a zeroed 40-byte buffer and yields
     * that buffer for decoding: it is still all zeros, whatever the device sent.
     */
    method GetBitTimingConsts(submitStatus: int, reply: seq<byte>) returns (r: Result<seq<byte>, Error>)
      requires |reply| <= 40
      modifies this`ctrlBuf
      ensures submitStatus != LIBUSB_SUCCESS ==> r == Err(LibusbError(submitStatus))
      ensures submitStatus == LIBUSB_SUCCESS ==> r == Ok(Zeros(40))
      ensures ctrlBuf == SetupHeader(VENDOR_INTERFACE_IN, GsUsb.BreqCode(GsUsb.UsbBreq.BitTimingConsts), 0, 0, 40)
                         + if submitStatus == LIBUSB_SUCCESS then reply + Zeros(40 - |reply|) else Zeros(40)
    {
      var buf := new byte[40](_ => 0);
      assert buf[..] == Zeros(40);
      var n :- ControlIn(GsUsb.UsbBreq.BitTimingConsts, 0, buf, submitStatus, reply);
      assert buf[|reply|..] == Zeros(40 - |reply|);
      r := Ok(buf[..]);
    }

    /** Requests the timestamp into a zeroed four-byte buffer and decodes that buffer. */
    method GetTimestamp(submitStatus: int, reply: seq<byte>) returns (r: Result<u32, Error>)
      requires |reply| <= 4
      modifies this`ctrlBuf
      ensures r == TimestampResult(submitStatus, reply)
      ensures submitStatus == LIBUSB_SUCCESS ==> r == Ok(0)
      ensures ctrlBuf == SetupHeader(VENDOR_INTERFACE_IN, GsUsb.BreqCode(GsUsb.Timestamp), 0, 0, 4)
                         + if submitStatus == LIBUSB_SUCCESS then reply + Zeros(4 - |reply|) else Zeros(4)
    {
      var buf := new byte[4](_ => 0);
      assert buf[..] == Zeros(4);
      var n :- ControlIn(GsUsb.Timestamp, 0, buf, submitStatus, reply);
      assert buf[|reply|..] == Zeros(4 - |reply|);
      r := Ok(U32FromLe(buf[..]));
    }

    /** Clears the bulk-out buffer and appends the encoded frame. */
    method Send(frameBytes: seq<byte>, submitStatus: int) returns (r: Result<Unit, Error>)
      modifies this`outBuf
      ensures outBuf == frameBytes
      ensures r == if submitStatus == LIBUSB_SUCCESS then Ok(Unit) else Err(LibusbError(submitStatus))
    {
      outBuf := [];
      outBuf := outBuf + frameBytes;
      if submitStatus != LIBUSB_SUCCESS {
        return Err(LibusbError(submitStatus));
      }
      r := Ok(Unit);
    }
  }
}
