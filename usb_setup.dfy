/**
 * The eight-byte setup packet that starts every USB control transfer
 * (section 9.3, Table 9-2, of the USB 2.0 specification): bmRequestType,
 * bRequest, then wValue, wIndex and wLength, each a little-endian 16-bit field.
 */
module UsbSetup {
  import opened Bytes

  const SETUP_SIZE: nat := 8

  /** Bit 7 of bmRequestType. */
  datatype Direction = HostToDevice | DeviceToHost

  /** Bits 6..5 of bmRequestType. */
  datatype RequestKind = Standard | Class | Vendor

  /** Bits 4..0 of bmRequestType. */
  datatype Recipient = ToDevice | ToInterface | ToEndpoint | ToOther

  /** The decoded fields of a setup packet. */
  datatype Setup = Setup(requestType: byte, request: byte, value: u16, index: u16, length: u16)

  /** bmRequestType assembled from its three parts, as `rusb::request_type` does. */
  function RequestType(d: Direction, k: RequestKind, r: Recipient): (b: byte)
  {
    (if d == DeviceToHost then 0x80 else 0)
    + (match k case Standard => 0 case Class => 0x20 case Vendor => 0x40)
    + (match r case ToDevice => 0 case ToInterface => 1 case ToEndpoint => 2 case ToOther => 3)
  }

  function DirectionOf(b: byte): Direction
  {
    if b >= 0x80 then DeviceToHost else HostToDevice
  }

  /** The request type the gs_usb host uses for its vendor OUT requests. */
  const VENDOR_INTERFACE_OUT: byte := 0x41
  /** The request type the gs_usb host uses for its vendor IN requests. */
  const VENDOR_INTERFACE_IN: byte := 0xC1

  /**
   * 0b0100_0001 is host-to-device, vendor, interface; 0b1100_0001 differs only in
   * the direction bit.
   */
  lemma VendorInterfaceRequestTypes()
    ensures RequestType(HostToDevice, Vendor, ToInterface) == VENDOR_INTERFACE_OUT
    ensures RequestType(DeviceToHost, Vendor, ToInterface) == VENDOR_INTERFACE_IN
    ensures DirectionOf(VENDOR_INTERFACE_OUT) == HostToDevice
    ensures DirectionOf(VENDOR_INTERFACE_IN) == DeviceToHost
  {
  }

  /** Every request type is assembled from a unique direction, kind and recipient. */
  lemma {:induction false} RequestTypeInjective(d1: Direction, k1: RequestKind, r1: Recipient,
                                                d2: Direction, k2: RequestKind, r2: Recipient)
    requires RequestType(d1, k1, r1) == RequestType(d2, k2, r2)
    ensures d1 == d2 && k1 == k2 && r1 == r2
  {
  }

  /**
   * The header bytes the host writes: wValue and wIndex split into low and high
   * byte, and the payload length `len` (a `usize` in the source) cast to its
   * low byte and `(len >> 8) as u8`, which keeps only bits 8..15.
   */
  function SetupHeader(requestType: byte, request: byte, value: u16, index: u16, len: nat): (r: seq<byte>)
  {
    [requestType, request, value % 0x100, value / 0x100, index % 0x100, index / 0x100,
     len % 0x100, len / 0x100 % 0x100]
  }

  /** Reads the setup packet at the front of a control buffer. */
  function ParseSetup(bs: seq<byte>): (s: Setup)
    requires |bs| >= SETUP_SIZE
  {
    Setup(bs[0], bs[1], U16FromLe(bs[2..4]), U16FromLe(bs[4..6]), U16FromLe(bs[6..8]))
  }

  /** Encodes a setup packet field by field. */
  function SetupBytes(s: Setup): (r: seq<byte>)
  {
    [s.requestType, s.request] + U16Le(s.value) + U16Le(s.index) + U16Le(s.length)
  }

  /**
   * The header the host writes is a well-formed setup packet carrying the given
   * fields; the length field is the payload length modulo 2^16.
   */
  lemma SetupHeaderParses(requestType: byte, request: byte, value: u16, index: u16, len: nat)
    ensures |SetupHeader(requestType, request, value, index, len)| == SETUP_SIZE
    ensures SetupHeader(requestType, request, value, index, len)
         == SetupBytes(Setup(requestType, request, value, index, len % 0x1_0000))
    ensures ParseSetup(SetupHeader(requestType, request, value, index, len))
         == Setup(requestType, request, value, index, len % 0x1_0000)
  {
    LengthHighByte(len);
    var s := Setup(requestType, request, value, index, len % 0x1_0000);
    assert SetupHeader(requestType, request, value, index, len) == SetupBytes(s);
    SetupRoundTrip(s);
  }

  /** Bits 8..15 of a length are the high byte of that length reduced to 16 bits. */
  lemma {:induction false} LengthHighByte(len: nat)
    ensures len / 0x100 % 0x100 == len % 0x1_0000 / 0x100
  {
    var q, r := len / 0x1_0000, len % 0x1_0000;
    var r1, r0 := r / 0x100, r % 0x100;
    assert len == (q * 0x100 + r1) * 0x100 + r0;
    assert len / 0x100 == q * 0x100 + r1;
  }

  /** Any eight bytes are exactly the encoding of what they parse to. */
  lemma {:induction false} ParseSetupInverse(bs: seq<byte>)
    requires |bs| >= SETUP_SIZE
    ensures SetupBytes(ParseSetup(bs)) == bs[..SETUP_SIZE]
  {
    U16FromLeInverse(bs[2..4]);
    U16FromLeInverse(bs[4..6]);
    U16FromLeInverse(bs[6..8]);
  }

  lemma {:induction false} SetupRoundTrip(s: Setup)
    ensures ParseSetup(SetupBytes(s)) == s
  {
    U16RoundTrip(s.value);
    U16RoundTrip(s.index);
    U16RoundTrip(s.length);
    var bs := SetupBytes(s);
    assert bs[2..4] == U16Le(s.value);
    assert bs[4..6] == U16Le(s.index);
    assert bs[6..8] == U16Le(s.length);
  }
}
