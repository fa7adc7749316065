/**
 * The gs_usb wire structures of the CAN-FD capable driver generation: request
 * codes, `can_id` flag bits, and the little-endian encoders and decoders of the
 * device-mode, bit-timing, bit-timing-constants, device-config and host-frame
 * structures. A host frame carries 64 data bytes and is 76 bytes long.
 */
module GsUsb {
  import opened Bytes
  import opened Wrappers

  /** `can_id` is OR'd with this bit when the frame has a 29-bit identifier. */
  const GSUSB_EXT_FLAG: bv32 := 0x8000_0000
  /** `can_id` is OR'd with this bit for a remote transmission request. */
  const GSUSB_RTR_FLAG: bv32 := 0x4000_0000
  /** `can_id` is OR'd with this bit for an error frame. */
  const GSUSB_ERR_FLAG: bv32 := 0x2000_0000
  /** The echo id of frames that were received rather than looped back. */
  const GSUSB_RX_ECHO_ID: u32 := 0xFFFF_FFFF

  /** Largest identifier of the 29-bit (extended) format of ISO 11898-1. */
  const CAN_EFF_MASK: bv32 := 0x1FFF_FFFF
  /** Largest identifier of the 11-bit (standard) format of ISO 11898-1. */
  const CAN_SFF_MASK: bv32 := 0x7FF

  /** A value with exactly one bit set. */
  predicate SingleBit(x: bv32)
  {
    x != 0 && x & (x - 1) == 0
  }

  /**
   * The three flags are distinct single bits above every 29-bit identifier, so
   * OR-ing them into an identifier can be undone by masking.
   */
  lemma FlagBitsAboveIdentifier(id: bv32)
    requires id <= CAN_EFF_MASK
    ensures SingleBit(GSUSB_EXT_FLAG) && SingleBit(GSUSB_RTR_FLAG) && SingleBit(GSUSB_ERR_FLAG)
    ensures GSUSB_EXT_FLAG & GSUSB_RTR_FLAG == 0 && GSUSB_EXT_FLAG & GSUSB_ERR_FLAG == 0
    ensures GSUSB_RTR_FLAG & GSUSB_ERR_FLAG == 0
    ensures (id | GSUSB_EXT_FLAG | GSUSB_RTR_FLAG | GSUSB_ERR_FLAG) & CAN_EFF_MASK == id
    ensures id & (GSUSB_EXT_FLAG | GSUSB_RTR_FLAG | GSUSB_ERR_FLAG) == 0
  {
  }

  /** The vendor requests (`bRequest`) of the gs_usb protocol. */
  datatype UsbBreq = HostFormat | BitTiming | Mode | Berr | BitTimingConsts
                   | DeviceConfig | Timestamp | Identify | DataBitTiming

  /** The `#[repr(u8)]` discriminant of a request: consecutive from 0. */
  function BreqCode(r: UsbBreq): (c: byte)
  {
    match r
    case HostFormat => 0
    case BitTiming => 1
    case Mode => 2
    case Berr => 3
    case BitTimingConsts => 4
    case DeviceConfig => 5
    case Timestamp => 6
    case Identify => 7
    case DataBitTiming => 8
  }

  /** The request a code stands for, if any. */
  function BreqFromCode(c: byte): (r: Option<UsbBreq>)
  {
    if c == 0 then Some(HostFormat)
    else if c == 1 then Some(UsbBreq.BitTiming)
    else if c == 2 then Some(UsbBreq.Mode)
    else if c == 3 then Some(Berr)
    else if c == 4 then Some(UsbBreq.BitTimingConsts)
    else if c == 5 then Some(UsbBreq.DeviceConfig)
    else if c == 6 then Some(Timestamp)
    else if c == 7 then Some(Identify)
    else if c == 8 then Some(DataBitTiming)
    else None
  }

  /** Codes are distinct and are exactly 0 through 8. */
  lemma BreqCodesConsecutive(r: UsbBreq, c: byte)
    ensures BreqFromCode(BreqCode(r)) == Some(r)
    ensures BreqFromCode(c).Some? <==> c <= 8
    ensures BreqFromCode(c).Some? ==> BreqCode(BreqFromCode(c).value) == c
  {
  }

  /** Channel modes written in `Mode.mode`. */
  datatype CanMode = Reset | Start

  function CanModeCode(m: CanMode): (c: u32)
  {
    match m
    case Reset => 0
    case Start => 1
  }

  /** Reset is 0 and Start is 1; distinct modes have distinct codes. */
  lemma CanModeCodes(m: CanMode, n: CanMode)
    ensures CanModeCode(Reset) == 0 && CanModeCode(Start) == 1
    ensures CanModeCode(m) == CanModeCode(n) ==> m == n
  {
  }

  /** The device-mode structure sent with the Mode request. */
  datatype Mode = Mode(mode: u32, flags: u32)

  /** The bit-timing structure sent with the BitTiming and DataBitTiming requests. */
  datatype BitTiming = BitTiming(propSeg: u32, phaseSeg1: u32, phaseSeg2: u32, sjw: u32, brp: u32)

  /** The bit-timing constants the device reports. */
  datatype BitTimingConsts = BitTimingConsts(
    feature: u32, fclkCan: u32,
    tseg1Min: u32, tseg1Max: u32, tseg2Min: u32, tseg2Max: u32,
    sjwMax: u32, brpMin: u32, brpMax: u32, brpInc: u32)

  /** The device configuration the device reports. */
  datatype DeviceConfig = DeviceConfig(
    reserved1: byte, reserved2: byte, reserved3: byte, icount: byte,
    swVersion: u32, hwVersion: u32)

  const FD_DATA_SIZE: nat := 64
  /** Size of the frame header (echo id, can id, dlc, channel, flags, reserved). */
  const FRAME_HEADER_SIZE: nat := 12
  /** `size_of::<HostFrame>()`. */
  const HOST_FRAME_SIZE: nat := 76

  type FdData = s: seq<byte> | |s| == 64 witness seq(64, _ => 0)

  /** A CAN frame as it travels over the bulk endpoints. */
  datatype HostFrame = HostFrame(
    echoId: u32, canId: u32, canDlc: byte, channel: byte, flags: byte, reserved: byte,
    data: FdData)

  // ---- encodings, field by field in declaration order ----

  function ModeBytes(m: Mode): seq<byte>
  {
    U32Le(m.mode) + U32Le(m.flags)
  }

  function BitTimingBytes(t: BitTiming): seq<byte>
  {
    U32Le(t.propSeg) + U32Le(t.phaseSeg1) + U32Le(t.phaseSeg2) + U32Le(t.sjw) + U32Le(t.brp)
  }

  function HostFrameBytes(f: HostFrame): seq<byte>
  {
    U32Le(f.echoId) + U32Le(f.canId) + [f.canDlc, f.channel, f.flags, f.reserved] + f.data
  }

  /**
   * The layout the device uses for the bit-timing constants it sends; the host
   * only decodes this structure, so this encoder is its reference.
   */
  function BitTimingConstsBytes(c: BitTimingConsts): seq<byte>
  {
    U32Le(c.feature) + U32Le(c.fclkCan) + U32Le(c.tseg1Min) + U32Le(c.tseg1Max)
    + U32Le(c.tseg2Min) + U32Le(c.tseg2Max) + U32Le(c.sjwMax) + U32Le(c.brpMin)
    + U32Le(c.brpMax) + U32Le(c.brpInc)
  }

  /** The layout the device uses for its configuration; reference for the decoder. */
  function DeviceConfigBytes(c: DeviceConfig): seq<byte>
  {
    [c.reserved1, c.reserved2, c.reserved3, c.icount] + U32Le(c.swVersion) + U32Le(c.hwVersion)
  }

  // ---- decoders ----

  /** Ten u32 fields at offsets 0, 4, ..., 36; the slice must hold 40 bytes. */
  function DecodeBitTimingConsts(bs: seq<byte>): (c: BitTimingConsts)
    requires |bs| >= 40
    ensures U32Le(c.feature) == bs[0..4] && U32Le(c.fclkCan) == bs[4..8]
    ensures U32Le(c.tseg1Min) == bs[8..12] && U32Le(c.tseg1Max) == bs[12..16]
    ensures U32Le(c.tseg2Min) == bs[16..20] && U32Le(c.tseg2Max) == bs[20..24]
    ensures U32Le(c.sjwMax) == bs[24..28] && U32Le(c.brpMin) == bs[28..32]
    ensures U32Le(c.brpMax) == bs[32..36] && U32Le(c.brpInc) == bs[36..40]
  {
    U32FromLeInverse(bs[0..4]);
    U32FromLeInverse(bs[4..8]);
    U32FromLeInverse(bs[8..12]);
    U32FromLeInverse(bs[12..16]);
    U32FromLeInverse(bs[16..20]);
    U32FromLeInverse(bs[20..24]);
    U32FromLeInverse(bs[24..28]);
    U32FromLeInverse(bs[28..32]);
    U32FromLeInverse(bs[32..36]);
    U32FromLeInverse(bs[36..40]);
    BitTimingConsts.BitTimingConsts(
      U32FromLe(bs[0..4]), U32FromLe(bs[4..8]), U32FromLe(bs[8..12]), U32FromLe(bs[12..16]),
      U32FromLe(bs[16..20]), U32FromLe(bs[20..24]), U32FromLe(bs[24..28]), U32FromLe(bs[28..32]),
      U32FromLe(bs[32..36]), U32FromLe(bs[36..40]))
  }

  /** Bytes 0..2 reserved, byte 3 the interface count, then two u32 versions. */
  function DecodeDeviceConfig(bs: seq<byte>): (c: DeviceConfig)
    requires |bs| >= 12
    ensures [c.reserved1, c.reserved2, c.reserved3, c.icount] == bs[..4]
    ensures U32Le(c.swVersion) == bs[4..8] && U32Le(c.hwVersion) == bs[8..12]
  {
    U32FromLeInverse(bs[4..8]);
    U32FromLeInverse(bs[8..12]);
    DeviceConfig.DeviceConfig(bs[0], bs[1], bs[2], bs[3], U32FromLe(bs[4..8]), U32FromLe(bs[8..12]))
  }

  /**
   * The frame read from a report of 12 to 76 bytes: the bytes after the header
   * fill the front of the 64-byte data array, the rest of which stays zero.
   * Shorter input underflows `bs.len() - 12` and longer input overruns the
   * array; both panic in the source.
   */
  function DecodeHostFrame(bs: seq<byte>): (f: HostFrame)
    requires FRAME_HEADER_SIZE <= |bs| <= HOST_FRAME_SIZE
    ensures U32Le(f.echoId) == bs[0..4] && U32Le(f.canId) == bs[4..8]
    ensures [f.canDlc, f.channel, f.flags, f.reserved] == bs[8..12]
    ensures f.data[..|bs| - FRAME_HEADER_SIZE] == bs[FRAME_HEADER_SIZE..]
    ensures forall k :: |bs| - FRAME_HEADER_SIZE <= k < FD_DATA_SIZE ==> f.data[k] == 0
  {
    U32FromLeInverse(bs[0..4]);
    U32FromLeInverse(bs[4..8]);
    HostFrame(U32FromLe(bs[0..4]), U32FromLe(bs[4..8]), bs[8], bs[9], bs[10], bs[11],
              bs[12..] + Zeros(HOST_FRAME_SIZE - |bs|))
  }

  // ---- the source's builders, step by step ----

  /** `Mode::to_le_bytes`. */
  method ModeToLeBytes(m: Mode) returns (data: seq<byte>)
    ensures data == ModeBytes(m)
  {
    data := [];
    data := data + U32Le(m.mode);
    data := data + U32Le(m.flags);
  }

  /** `BitTiming::to_le_bytes`. */
  method BitTimingToLeBytes(t: BitTiming) returns (data: seq<byte>)
    ensures data == BitTimingBytes(t)
  {
    data := [];
    data := data + U32Le(t.propSeg);
    data := data + U32Le(t.phaseSeg1);
    data := data + U32Le(t.phaseSeg2);
    data := data + U32Le(t.sjw);
    data := data + U32Le(t.brp);
  }

  /** `HostFrame::to_le_bytes`. */
  method HostFrameToLeBytes(f: HostFrame) returns (data: seq<byte>)
    ensures data == HostFrameBytes(f)
  {
    data := [];
    data := data + U32Le(f.echoId);
    data := data + U32Le(f.canId);
    data := data + [f.canDlc];
    data := data + [f.channel];
    data := data + [f.flags];
    data := data + [f.reserved];
    data := data + f.data;
  }

  /** `HostFrame::from_le_bytes`: a zeroed 64-byte array filled from `bs[12..]`. */
  method HostFrameFromLeBytes(bs: seq<byte>) returns (f: HostFrame)
    requires FRAME_HEADER_SIZE <= |bs| <= HOST_FRAME_SIZE
    ensures f == DecodeHostFrame(bs)
  {
    var data := new byte[FD_DATA_SIZE](_ => 0);
    var n := |bs| - FRAME_HEADER_SIZE;
    for i := 0 to n
      invariant data[..] == bs[FRAME_HEADER_SIZE..FRAME_HEADER_SIZE + i] + Zeros(FD_DATA_SIZE - i)
    {
      data[i] := bs[FRAME_HEADER_SIZE + i];
    }
    assert bs[FRAME_HEADER_SIZE..FRAME_HEADER_SIZE + n] == bs[12..];
    f := HostFrame(U32FromLe(bs[0..4]), U32FromLe(bs[4..8]), bs[8], bs[9], bs[10], bs[11], data[..]);
  }

  // ---- layouts and round trips ----

  /** The mode structure is 8 bytes: `mode` then `flags`, each little-endian. */
  lemma {:induction false} ModeLayout(m: Mode)
    ensures |ModeBytes(m)| == 8
    ensures U32FromLe(ModeBytes(m)[0..4]) == m.mode
    ensures U32FromLe(ModeBytes(m)[4..8]) == m.flags
  {
    var b := ModeBytes(m);
    assert b[0..4] == U32Le(m.mode);
    assert b[4..8] == U32Le(m.flags);
    U32RoundTrip(m.mode);
    U32RoundTrip(m.flags);
  }

  /** The bit-timing structure is 20 bytes, fields little-endian in declaration order. */
  lemma {:induction false} BitTimingLayout(t: BitTiming)
    ensures |BitTimingBytes(t)| == 20
    ensures U32FromLe(BitTimingBytes(t)[0..4]) == t.propSeg
    ensures U32FromLe(BitTimingBytes(t)[4..8]) == t.phaseSeg1
    ensures U32FromLe(BitTimingBytes(t)[8..12]) == t.phaseSeg2
    ensures U32FromLe(BitTimingBytes(t)[12..16]) == t.sjw
    ensures U32FromLe(BitTimingBytes(t)[16..20]) == t.brp
  {
    var b := BitTimingBytes(t);
    assert b[0..4] == U32Le(t.propSeg);
    assert b[4..8] == U32Le(t.phaseSeg1);
    assert b[8..12] == U32Le(t.phaseSeg2);
    assert b[12..16] == U32Le(t.sjw);
    assert b[16..20] == U32Le(t.brp);
    U32RoundTrip(t.propSeg);
    U32RoundTrip(t.phaseSeg1);
    U32RoundTrip(t.phaseSeg2);
    U32RoundTrip(t.sjw);
    U32RoundTrip(t.brp);
  }

  /** Decoding the device's encoding of the constants gives them back. */
  lemma {:induction false} BitTimingConstsRoundTrip(c: BitTimingConsts)
    ensures |BitTimingConstsBytes(c)| == 40
    ensures DecodeBitTimingConsts(BitTimingConstsBytes(c)) == c
  {
    var b := BitTimingConstsBytes(c);
    assert b[0..4] == U32Le(c.feature);
    assert b[4..8] == U32Le(c.fclkCan);
    assert b[8..12] == U32Le(c.tseg1Min);
    assert b[12..16] == U32Le(c.tseg1Max);
    assert b[16..20] == U32Le(c.tseg2Min);
    assert b[20..24] == U32Le(c.tseg2Max);
    assert b[24..28] == U32Le(c.sjwMax);
    assert b[28..32] == U32Le(c.brpMin);
    assert b[32..36] == U32Le(c.brpMax);
    assert b[36..40] == U32Le(c.brpInc);
    U32RoundTrip(c.feature);
    U32RoundTrip(c.fclkCan);
    U32RoundTrip(c.tseg1Min);
    U32RoundTrip(c.tseg1Max);
    U32RoundTrip(c.tseg2Min);
    U32RoundTrip(c.tseg2Max);
    U32RoundTrip(c.sjwMax);
    U32RoundTrip(c.brpMin);
    U32RoundTrip(c.brpMax);
    U32RoundTrip(c.brpInc);
  }

  /**
   * The decoder reads exactly the first 40 bytes: re-encoding what it read
   * reproduces them.
   */
  lemma {:induction false} DecodeBitTimingConstsReadsPrefix(bs: seq<byte>)
    requires |bs| >= 40
    ensures BitTimingConstsBytes(DecodeBitTimingConsts(bs)) == bs[..40]
  {
    U32FromLeInverse(bs[0..4]);
    U32FromLeInverse(bs[4..8]);
    U32FromLeInverse(bs[8..12]);
    U32FromLeInverse(bs[12..16]);
    U32FromLeInverse(bs[16..20]);
    U32FromLeInverse(bs[20..24]);
    U32FromLeInverse(bs[24..28]);
    U32FromLeInverse(bs[28..32]);
    U32FromLeInverse(bs[32..36]);
    U32FromLeInverse(bs[36..40]);
    assert bs[0..4] + bs[4..8] == bs[0..8];
    assert bs[0..8] + bs[8..12] == bs[0..12];
    assert bs[0..12] + bs[12..16] == bs[0..16];
    assert bs[0..16] + bs[16..20] == bs[0..20];
    assert bs[0..20] + bs[20..24] == bs[0..24];
    assert bs[0..24] + bs[24..28] == bs[0..28];
    assert bs[0..28] + bs[28..32] == bs[0..32];
    assert bs[0..32] + bs[32..36] == bs[0..36];
    assert bs[0..36] + bs[36..40] == bs[..40];
  }

  /** Decoding the device's encoding of its configuration gives it back. */
  lemma {:induction false} DeviceConfigRoundTrip(c: DeviceConfig)
    ensures |DeviceConfigBytes(c)| == 12
    ensures DecodeDeviceConfig(DeviceConfigBytes(c)) == c
  {
    var b := DeviceConfigBytes(c);
    assert b[4..8] == U32Le(c.swVersion);
    assert b[8..12] == U32Le(c.hwVersion);
    U32RoundTrip(c.swVersion);
    U32RoundTrip(c.hwVersion);
  }

  /** The configuration decoder reads exactly the first 12 bytes. */
  lemma {:induction false} DecodeDeviceConfigReadsPrefix(bs: seq<byte>)
    requires |bs| >= 12
    ensures DeviceConfigBytes(DecodeDeviceConfig(bs)) == bs[..12]
  {
    U32FromLeInverse(bs[4..8]);
    U32FromLeInverse(bs[8..12]);
    assert bs[..12] == bs[0..4] + bs[4..8] + bs[8..12];
  }

  /**
   * A host frame is 76 bytes: echo id and can id little-endian, then dlc,
   * channel, flags and reserved, then the 64 data bytes.
   */
  lemma {:induction false} HostFrameLayout(f: HostFrame)
    ensures |HostFrameBytes(f)| == HOST_FRAME_SIZE
    ensures U32FromLe(HostFrameBytes(f)[0..4]) == f.echoId
    ensures U32FromLe(HostFrameBytes(f)[4..8]) == f.canId
    ensures HostFrameBytes(f)[8] == f.canDlc && HostFrameBytes(f)[9] == f.channel
    ensures HostFrameBytes(f)[10] == f.flags && HostFrameBytes(f)[11] == f.reserved
    ensures HostFrameBytes(f)[FRAME_HEADER_SIZE..] == f.data
  {
    var b := HostFrameBytes(f);
    assert b[0..4] == U32Le(f.echoId);
    assert b[4..8] == U32Le(f.canId);
    U32RoundTrip(f.echoId);
    U32RoundTrip(f.canId);
  }

  /** Every frame survives encoding and decoding unchanged. */
  lemma {:induction false} HostFrameRoundTrip(f: HostFrame)
    ensures |HostFrameBytes(f)| == HOST_FRAME_SIZE
    ensures DecodeHostFrame(HostFrameBytes(f)) == f
  {
    HostFrameLayout(f);
    var b := HostFrameBytes(f);
    assert b[12..] + Zeros(0) == f.data;
  }

  /**
   * Decoding a short report and re-encoding it gives the report padded with
   * zero bytes to the full 76.
   */
  lemma {:induction false} DecodeHostFramePads(bs: seq<byte>)
    requires FRAME_HEADER_SIZE <= |bs| <= HOST_FRAME_SIZE
    ensures HostFrameBytes(DecodeHostFrame(bs)) == bs + Zeros(HOST_FRAME_SIZE - |bs|)
  {
    U32FromLeInverse(bs[0..4]);
    U32FromLeInverse(bs[4..8]);
    assert bs == bs[0..4] + bs[4..8] + [bs[8], bs[9], bs[10], bs[11]] + bs[12..];
  }
}
