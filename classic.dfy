/**
 * The first, rusb-based generation of the gs_usb host code: an 8-byte-data host
 * frame of 20 bytes, the eight vendor requests it knows, and a device handle with
 * a settable control-transfer timeout. Its mode, bit-timing, bit-timing-constants
 * and device-config structures have the same layout as those of `GsUsb`.
 */
module Classic {
  import opened Bytes
  import GsUsb

  /** The vendor requests known to this generation: those of `GsUsb` up to Identify. */
  datatype UsbBreq = HostFormat | BitTiming | Mode | Berr | BitTimingConsts
                   | DeviceConfig | Timestamp | Identify

  function BreqCode(r: UsbBreq): (c: byte)
  {
    match r
    case HostFormat => 0
    case BitTiming => 1
    case Mode => 2
    case Berr => 3
    case BitTimingConsts => 4
    case DeviceConfig => 5
    case Timestamp => 6
    case Identify => 7
  }

  /** The request of the later generation with the same meaning. */
  function ToGsUsb(r: UsbBreq): GsUsb.UsbBreq
  {
    match r
    case HostFormat => GsUsb.HostFormat
    case BitTiming => GsUsb.UsbBreq.BitTiming
    case Mode => GsUsb.UsbBreq.Mode
    case Berr => GsUsb.Berr
    case BitTimingConsts => GsUsb.UsbBreq.BitTimingConsts
    case DeviceConfig => GsUsb.UsbBreq.DeviceConfig
    case Timestamp => GsUsb.Timestamp
    case Identify => GsUsb.Identify
  }

  /**
   * The codes run 0..7 without gaps, and each agrees with the code of the
   * same request in the later generation, which only adds DataBitTiming = 8.
   */
  lemma BreqCodesMatchLaterGeneration(r: UsbBreq, s: UsbBreq)
    ensures BreqCode(r) <= 7
    ensures BreqCode(r) == GsUsb.BreqCode(ToGsUsb(r))
    ensures BreqCode(r) == BreqCode(s) ==> r == s
    ensures ToGsUsb(r) != GsUsb.DataBitTiming
  {
  }

  const DATA_SIZE: nat := 8
  /** `size_of::<HostFrame>()` of this generation. */
  const HOST_FRAME_SIZE: nat := 20

  type ClassicData = s: seq<byte> | |s| == 8 witness [0, 0, 0, 0, 0, 0, 0, 0]

  /** A CAN frame with 8 data bytes, as it travels over the bulk endpoints. */
  datatype HostFrame = HostFrame(
    echoId: u32, canId: u32, canDlc: byte, channel: byte, flags: byte, reserved: byte,
    data: ClassicData)

  function HostFrameBytes(f: HostFrame): seq<byte>
  {
    U32Le(f.echoId) + U32Le(f.canId) + [f.canDlc, f.channel, f.flags, f.reserved] + f.data
  }

  /** Reads the first 20 bytes of `bs`; fewer bytes make the source panic. */
  function DecodeHostFrame(bs: seq<byte>): (f: HostFrame)
    requires |bs| >= HOST_FRAME_SIZE
    ensures U32Le(f.echoId) == bs[0..4] && U32Le(f.canId) == bs[4..8]
    ensures [f.canDlc, f.channel, f.flags, f.reserved] == bs[8..12]
    ensures f.data == bs[12..HOST_FRAME_SIZE]
  {
    U32FromLeInverse(bs[0..4]);
    U32FromLeInverse(bs[4..8]);
    HostFrame(U32FromLe(bs[0..4]), U32FromLe(bs[4..8]), bs[8], bs[9], bs[10], bs[11],
              [bs[12], bs[13], bs[14], bs[15], bs[16], bs[17], bs[18], bs[19]])
  }

  /** `HostFrame::to_le_bytes`, built up as the source pushes onto its vector. */
  method HostFrameToLeBytes(f: HostFrame) returns (data: seq<byte>)
    ensures data == HostFrameBytes(f)
  {
    data := [];
    data := data + U32Le(f.echoId);
    data := data + U32Le(f.canId);
    data := data + [f.canDlc];
    data := data + [f.channel];
    data := data + [f.flags];
    data := data + [f.reserved];
    data := data + f.data;
  }

  /**
   * A frame is 20 bytes: echo id and can id little-endian, then dlc, channel,
   * flags and reserved, then the 8 data bytes; decoding gives the frame back.
   */
  lemma {:induction false} HostFrameRoundTrip(f: HostFrame)
    ensures |HostFrameBytes(f)| == HOST_FRAME_SIZE
    ensures HostFrameBytes(f)[8] == f.canDlc && HostFrameBytes(f)[9] == f.channel
    ensures HostFrameBytes(f)[12..] == f.data
    ensures DecodeHostFrame(HostFrameBytes(f)) == f
  {
    var b := HostFrameBytes(f);
    assert b[0..4] == U32Le(f.echoId);
    assert b[4..8] == U32Le(f.canId);
    U32RoundTrip(f.echoId);
    U32RoundTrip(f.canId);
    assert b[12..] == f.data;
  }

  /** The decoder reads exactly the first 20 bytes. */
  lemma {:induction false} DecodeHostFrameReadsPrefix(bs: seq<byte>)
    requires |bs| >= HOST_FRAME_SIZE
    ensures HostFrameBytes(DecodeHostFrame(bs)) == bs[..HOST_FRAME_SIZE]
  {
    U32FromLeInverse(bs[0..4]);
    U32FromLeInverse(bs[4..8]);
    assert bs[..20] == bs[0..4] + bs[4..8] + [bs[8], bs[9], bs[10], bs[11]]
                     + [bs[12], bs[13], bs[14], bs[15], bs[16], bs[17], bs[18], bs[19]];
  }

  /** A `std::time::Duration`, counted in nanoseconds. */
  datatype Duration = Duration(nanos: nat)

  function FromMillis(ms: nat): Duration
  {
    Duration(ms * 1_000_000)
  }

  /** An open rusb device and the timeout used for its transfers. */
  class Device {
    /** Stands for the claimed `rusb::DeviceHandle`. */
    var handle: nat
    var timeout: Duration

    /** The state `Device::new` builds once the handle is open and claimed. */
    constructor (handle: nat)
      ensures this.handle == handle
      ensures timeout == FromMillis(1000) && timeout.nanos == 1_000_000_000
    {
      this.handle := handle;
      timeout := FromMillis(1000);
    }

    /** Replaces the timeout; the handle stays the same. */
    method SetTimeout(d: Duration)
      modifies this`timeout
      ensures timeout == d
      ensures handle == old(handle)
    {
      timeout := d;
    }
  }
}
