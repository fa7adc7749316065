# gs_usb host side of cantact, in Dafny

This project models the host side of the gs_usb (candleLight / Geschwister
Schneider) USB-to-CAN protocol as the cantact tools and driver implement it,
and proves properties of that model. It has three parts.

- **Wire structures.** The little-endian structures exchanged with the device
  are `Mode`, `BitTiming`, `BitTimingConsts`, `DeviceConfig` and the bulk
  `HostFrame`. There are three generations:
  - the rusb generation (`src/lib.rs`, `src/device.rs`): 8 data bytes in a
    20-byte frame (module `Classic`);
  - the earlier libusb generation (`src/device/mod.rs`), whose structures live
    in `src/device/gsusb.rs`, which is not part of this model (module `Legacy`
    covers its control requests only);
  - the CAN-FD driver (`driver/src/device/gsusb.rs`): 64 data bytes in a
    76-byte frame (module `GsUsb`).

  `Mode`, `BitTiming`, `BitTimingConsts` and `DeviceConfig` have the same
  layout in the rusb generation and the CAN-FD driver, so `GsUsb` defines them
  once. For the earlier libusb generation the same layout is assumed: its
  12-byte and 40-byte request lengths in `Legacy` rest on that assumption. So
  does its `UsbBreq` request numbering: `Legacy` sends the CAN-FD driver's
  codes from `GsUsb.BreqCode`. All
  little-endian integer handling is in `Bytes`.
- **Control requests.** Two generations build the USB setup packet and
  payload of a control transfer.
  - `Driver`, from `driver/src/device/mod.rs`, writes them into a fixed
    64-byte array in place.
  - `Legacy`, from `src/device/mod.rs`, clears and refills a growable vector.

  The setup packet follows section 9.3, Table 9-2 of the USB 2.0
  specification (module `UsbSetup`).
- **Command-line rules.**
  - `Helpers` checks the `channel` argument.
  - `SendCmd` covers the `send` command: restricting the configuration to one
    channel, and the send loop's rolling 11-bit identifier.
  - `Dump` covers the `dump` command's text rendering of a frame.
  - `Text` models the integer formatting and parsing these use.

Submitting a libusb transfer and waiting for its callback are outside the
model. Each device operation takes two parameters instead:

- the status `libusb_submit_transfer` returned (`0` is success);
- for IN requests, the bytes the device answered with.

The Ctrl-C flag that ends the send loop becomes a count of iterations.

`src/device/gsusb.rs`, the structure module used by `src/device/mod.rs`, is
not part of this model. The `Legacy` operations therefore take encoded
structures as bytes, and return the raw bytes they would have decoded.

## Model

| member | source | states |
|---|---|---|
| Bytes.Zeros | driver/src/device/mod.rs:233 | a cleared buffer of length n holds only zero bytes |
| Bytes.U16RoundTrip | driver/src/device/mod.rs:237-242 | splitting a u16 into low and high byte gives 2 bytes that read back as the value |
| Bytes.U16FromLeInverse | driver/src/device/mod.rs:237-242 | every 2-byte little-endian field is the encoding of the value read from it |
| Bytes.U32FromLe | driver/src/device/gsusb.rs:71-74 | byte 0 is the least significant byte of the value and byte 3 the most significant |
| Bytes.U32RoundTrip | driver/src/device/gsusb.rs:71-74 | a u32 encodes to 4 little-endian bytes that `u32_from_le_bytes` reads back as the same value |
| Bytes.U32FromLeInverse | driver/src/device/gsusb.rs:71-74 | `u32_from_le_bytes` reads exactly bytes 0..4: re-encoding the value gives those four bytes |
| Bytes.U32FromLePrefix | driver/src/device/gsusb.rs:71-74 | bytes after the fourth do not affect the value read |
| UsbSetup.VendorInterfaceRequestTypes | driver/src/device/mod.rs:285-305 | 0x41 is host-to-device/vendor/interface and 0xC1 is device-to-host/vendor/interface, with the direction in bit 7 |
| UsbSetup.RequestTypeInjective | src/device/mod.rs:259-276 | distinct direction/type/recipient triples give distinct bmRequestType bytes, so the constants 0b01000001 (line 260) and 0b11000001 (line 275) each denote exactly one triple |
| UsbSetup.SetupHeaderParses | src/device/mod.rs:207-216 | the eight setup bytes are bmRequestType, bRequest, then wValue, wIndex and wLength little-endian, and parse back to those fields |
| UsbSetup.LengthHighByte | driver/src/device/mod.rs:241-242 | `(len >> 8) as u8` is the high byte of the length reduced to 16 bits, so wLength is the payload length modulo 2^16 |
| UsbSetup.ParseSetupInverse | driver/src/device/mod.rs:235-242 | any 8-byte setup packet is the encoding of the fields parsed from it |
| UsbSetup.SetupRoundTrip | driver/src/device/mod.rs:235-242 | encoding then parsing a setup packet gives the packet back |
| GsUsb.FlagBitsAboveIdentifier | driver/src/device/gsusb.rs:5-9 | EXT, RTR and ERR are single, pairwise distinct bits above the 29-bit identifier, so setting them never changes the identifier bits |
| GsUsb.BreqCodesConsecutive | driver/src/device/gsusb.rs:43-53 | request codes are HostFormat = 0 through DataBitTiming = 8 without gaps; code and request map one to one |
| GsUsb.CanModeCodes | driver/src/device/gsusb.rs:56-59 | Reset is 0 and Start is 1 |
| GsUsb.ModeToLeBytes | driver/src/device/gsusb.rs:82-87 | the vector built by pushing mode then flags is the mode's encoding |
| GsUsb.ModeLayout | driver/src/device/gsusb.rs:82-87 | a mode is 8 bytes: mode little-endian at 0..4, flags at 4..8 (same layout at src/device.rs:50-55 and src/lib.rs:51-56) |
| GsUsb.BitTimingToLeBytes | driver/src/device/gsusb.rs:100-108 | the vector built field by field is the bit timing's encoding |
| GsUsb.BitTimingLayout | driver/src/device/gsusb.rs:100-108 | a bit timing is 20 bytes: prop_seg, phase_seg1, phase_seg2, sjw, brp, each little-endian, in that order (same at src/device.rs:67-76 and src/lib.rs:68-76) |
| GsUsb.DecodeBitTimingConsts | driver/src/device/gsusb.rs:126-139 | each of the ten fields is the little-endian word at offset 0, 4, ..., 36, in declaration order |
| GsUsb.BitTimingConstsRoundTrip | driver/src/device/gsusb.rs:126-139 | the decoder reads ten u32 fields at offsets 0, 4, ..., 36: decoding their 40-byte encoding gives the constants back (same at src/device.rs:94-107 and src/lib.rs:94-107) |
| GsUsb.DecodeBitTimingConstsReadsPrefix | driver/src/device/gsusb.rs:126-139 | the decoder uses exactly the first 40 bytes: re-encoding its result gives them back |
| GsUsb.DecodeDeviceConfig | driver/src/device/gsusb.rs:153-162 | the three reserved bytes and icount are bytes 0..4; sw_version and hw_version are the little-endian words at 4..8 and 8..12 |
| GsUsb.DeviceConfigRoundTrip | driver/src/device/gsusb.rs:153-162 | bytes 0-2 are reserved, byte 3 is icount, then sw_version at 4..8 and hw_version at 8..12; decoding the 12-byte encoding gives the configuration back (same at src/device.rs:121-130) |
| GsUsb.DecodeDeviceConfigReadsPrefix | driver/src/device/gsusb.rs:153-162 | the decoder uses exactly the first 12 bytes |
| GsUsb.HostFrameToLeBytes | driver/src/device/gsusb.rs:192-202 | the vector built by pushing each field is the frame's encoding |
| GsUsb.HostFrameLayout | driver/src/device/gsusb.rs:192-202 | a host frame is 76 bytes: echo_id and can_id little-endian, then dlc, channel, flags, reserved, then the 64 data bytes |
| GsUsb.DecodeHostFrame | driver/src/device/gsusb.rs:178-191 | echo_id and can_id are the words at 0..4 and 4..8; dlc, channel, flags and reserved are bytes 8..12; the data starts with bytes 12.. and is zero after them |
| GsUsb.HostFrameFromLeBytes | driver/src/device/gsusb.rs:178-191 | for 12 to 76 input bytes, the header fields come from bytes 0..12 and the data array is bytes 12.. followed by zeros, filled in place |
| GsUsb.HostFrameRoundTrip | driver/src/device/gsusb.rs:178-202 | decoding the encoding of any frame gives the frame back |
| GsUsb.DecodeHostFramePads | driver/src/device/gsusb.rs:178-191 | a short frame's data is its bytes after 12 followed by zeros up to 64 bytes |
| Classic.BreqCodesMatchLaterGeneration | src/device.rs:13-22 | the eight request codes run 0..7 in order (as in src/lib.rs:11-20) and agree with the later generation, which only adds DataBitTiming |
| Classic.HostFrameToLeBytes | src/device.rs:160-170 | the vector built by pushing each field is the 20-byte frame encoding |
| Classic.DecodeHostFrame | src/device.rs:147-159 | echo_id and can_id are the words at 0..4 and 4..8; dlc, channel, flags and reserved are bytes 8..12; the data is bytes 12..20 |
| Classic.HostFrameRoundTrip | src/device.rs:146-170 | a frame is 20 bytes with dlc at 8, channel at 9 and the 8 data bytes at 12; decoding it gives the frame back (same at src/lib.rs:124-147) |
| Classic.DecodeHostFrameReadsPrefix | src/device.rs:147-159 | the decoder uses exactly the first 20 bytes |
| Classic.Device.constructor | src/device.rs:186 | a new device has a timeout of 1000 ms |
| Classic.Device.SetTimeout | src/device.rs:193-195 | the timeout is replaced and the handle is unchanged |
| Driver.ControlBufferLayout | driver/src/device/mod.rs:233-245 | the control buffer is 64 bytes: setup packet with wLength = payload length, then the payload, then zeros |
| Driver.TimestampResult | driver/src/device/mod.rs:370-375 | success exactly when the submission succeeded and at least 4 bytes came back; the timestamp is then the little-endian reading of the first four; a failed submission carries its status |
| Driver.TimestampDecodesReply | driver/src/device/mod.rs:370-375 | a four-byte little-endian reply is read as that timestamp; a shorter reply is InvalidControlResponse |
| Driver.BulkInCallback | driver/src/device/mod.rs:102-118 | a frame is forwarded exactly when the transfer completed, and its encoding is the whole 76-byte buffer; the transfer is resubmitted exactly when it was not cancelled |
| Driver.BulkInBufferHoldsOneFrame | driver/src/device/mod.rs:108-109 | a completed bulk-in buffer holding the encoding of a frame is forwarded as that same frame |
| Driver.Device.constructor | driver/src/device/mod.rs:155-159 | the control buffer starts as 64 zero bytes and the bulk-out buffer empty |
| Driver.Device.FillControlTransfer | driver/src/device/mod.rs:222-245 | for a payload of at most 56 bytes, the array is cleared, the setup bytes written, and the payload copied in place: it then equals ControlBuffer |
| Driver.Device.WriteSetup | driver/src/device/mod.rs:235-242 | the eight byte writes leave the setup header at the front of the array and the rest of the array unchanged |
| Driver.Device.ReceiveReply | driver/src/device/mod.rs:313-319 | the device's reply occupies the bytes after the setup packet; the rest of the buffer is untouched |
| Driver.Device.ControlOut | driver/src/device/mod.rs:285-299 | the request is sent with type 0x41, wValue = channel, wIndex = 0; a failed submission is a LibusbError naming control_out |
| Driver.Device.ControlIn | driver/src/device/mod.rs:301-320 | the request has type 0xC1 and wLength = len; a reply shorter than len is InvalidControlResponse, otherwise the reply bytes are returned |
| Driver.Device.SetHostFormat | driver/src/device/mod.rs:322-325 | sends HostFormat on channel 0 with the value little-endian; the control buffer is then exactly ControlBuffer of type 0x41, that request, the channel, wIndex 0 and that payload; the result is Ok(()) on a successful submission and otherwise LibusbError("control_out: libusb_submit_transfer", status) |
| Driver.Device.SetBitTiming | driver/src/device/mod.rs:327-329 | sends BitTiming with the encoded timing; the control buffer is then exactly ControlBuffer of type 0x41, that request, the channel, wIndex 0 and that payload; the result is Ok(()) on a successful submission and otherwise LibusbError("control_out: libusb_submit_transfer", status) |
| Driver.Device.SetDataBitTiming | driver/src/device/mod.rs:331-337 | sends DataBitTiming with the encoded timing; the control buffer is then exactly ControlBuffer of type 0x41, that request, the channel, wIndex 0 and that payload; the result is Ok(()) on a successful submission and otherwise LibusbError("control_out: libusb_submit_transfer", status) |
| Driver.Device.SetMode | driver/src/device/mod.rs:339-341 | sends Mode with the encoded mode; the control buffer is then exactly ControlBuffer of type 0x41, that request, the channel, wIndex 0 and that payload; the result is Ok(()) on a successful submission and otherwise LibusbError("control_out: libusb_submit_transfer", status) |
| Driver.Device.SetIdentify | driver/src/device/mod.rs:343-346 | sends Identify on channel 0 with the value little-endian; the control buffer is then exactly ControlBuffer of type 0x41, that request, the channel, wIndex 0 and that payload; the result is Ok(()) on a successful submission and otherwise LibusbError("control_out: libusb_submit_transfer", status) |
| Driver.Device.SetBerr | driver/src/device/mod.rs:348-352 | sends Berr on channel 0 with the value little-endian; the control buffer is then exactly ControlBuffer of type 0x41, that request, the channel, wIndex 0 and that payload; the result is Ok(()) on a successful submission and otherwise LibusbError("control_out: libusb_submit_transfer", status) |
| Driver.Device.GetDeviceConfig | driver/src/device/mod.rs:354-358 | sends the DeviceConfig IN request on channel 0 with wLength 12 (the exact control buffer); a full 12-byte reply is decoded as the device configuration; short replies and failed submissions are errors |
| Driver.Device.GetBitTimingConsts | driver/src/device/mod.rs:360-368 | sends the BitTimingConsts IN request on channel 0 with wLength 40 (the exact control buffer); a full 40-byte reply is decoded as the bit-timing constants; short replies and failed submissions are errors |
| Driver.Device.GetTimestamp | driver/src/device/mod.rs:370-375 | sends the Timestamp IN request on channel 0 with wLength 4 (the exact control buffer); the result is the first four reply bytes read little-endian, or the error of the request |
| Driver.Device.Send | driver/src/device/mod.rs:377-393 | the bulk-out buffer becomes exactly the 76-byte frame encoding, with nothing left from earlier sends |
| Legacy.TimestampDiscardsReply | src/device/mod.rs:327-332 | for a device reply of 0x12345678 this generation's `get_timestamp` (through `control_in`, lines 274-287) reports 0 while the driver generation reports 0x12345678 |
| Legacy.TimestampResult | src/device/mod.rs:327-332 | success exactly when the submission succeeded, and then the timestamp is always 0 |
| Legacy.Device.constructor | src/device/mod.rs:142-146 | both buffers start empty |
| Legacy.Device.FillControlTransfer | src/device/mod.rs:196-219 | the buffer becomes exactly the 8 setup bytes followed by the payload; nothing of an earlier request survives |
| Legacy.Device.ControlOut | src/device/mod.rs:259-272 | the request has type 0b01000001, wValue = channel, wIndex = 0; a failed submission is a LibusbError |
| Legacy.Device.ControlIn | src/device/mod.rs:274-287 | the request has type 0b11000001 and carries the caller's buffer; success is Ok(0) and the caller's buffer is never written |
| Legacy.Device.SetHostFormat | src/device/mod.rs:289-292 | sends HostFormat on channel 0 with the value little-endian; the control buffer is then exactly the setup header (type 0b01000001, that request, the channel, wIndex 0, the payload length) followed by that payload; the result is Ok(()) on a successful submission and otherwise LibusbError(status) |
| Legacy.Device.SetBitTiming | src/device/mod.rs:294-296 | sends BitTiming with the encoded timing; the control buffer is then exactly the setup header (type 0b01000001, that request, the channel, wIndex 0, the payload length) followed by that payload; the result is Ok(()) on a successful submission and otherwise LibusbError(status) |
| Legacy.Device.SetMode | src/device/mod.rs:298-300 | sends Mode with the encoded mode; the control buffer is then exactly the setup header (type 0b01000001, that request, the channel, wIndex 0, the payload length) followed by that payload; the result is Ok(()) on a successful submission and otherwise LibusbError(status) |
| Legacy.Device.SetIdentify | src/device/mod.rs:302-305 | sends Identify on channel 0 with the value little-endian; the control buffer is then exactly the setup header (type 0b01000001, that request, the channel, wIndex 0, the payload length) followed by that payload; the result is Ok(()) on a successful submission and otherwise LibusbError(status) |
| Legacy.Device.SetBerr | src/device/mod.rs:307-311 | sends Berr on channel 0 with the value little-endian; the control buffer is then exactly the setup header (type 0b01000001, that request, the channel, wIndex 0, the payload length) followed by that payload; the result is Ok(()) on a successful submission and otherwise LibusbError(status) |
| Legacy.Device.GetDeviceConfig | src/device/mod.rs:313-318 | sends the DeviceConfig IN request on channel 0 with wLength 12 (the exact control buffer, holding the reply on success); on success the bytes handed to the decoder are 12 zeros, whatever the device sent |
| Legacy.Device.GetBitTimingConsts | src/device/mod.rs:320-325 | sends the BitTimingConsts IN request on channel 0 with wLength 40 (the exact control buffer, holding the reply on success); on success the bytes handed to the decoder are 40 zeros, whatever the device sent |
| Legacy.Device.GetTimestamp | src/device/mod.rs:327-332 | sends the Timestamp IN request on channel 0 with wLength 4 (the exact control buffer, holding the reply on success); on success the timestamp is always 0 |
| Legacy.Device.Send | src/device/mod.rs:334-350 | the bulk-out buffer becomes exactly the encoded frame |
| Text.DigitsAreDigits | src/dump.rs:9 | formatting a number gives at least one digit of the base |
| Text.DigitsValue | src/dump.rs:9-11 | decimal and upper-case hex formatting read back as the number |
| Text.PadZerosValue | src/dump.rs:9-11 | zero padding keeps the value and the digits, ends with the unpadded text, and is at least the width |
| Text.ParseUsize | src/helpers.rs:35 | a string is accepted exactly when, after at most one leading '+', it is a non-empty run of decimal digits whose value is at most 2^64-1; the result is then that value |
| Text.ParseUsizeSigned | src/helpers.rs:35 | a '+' before the decimal rendering of a number up to 2^64-1 is accepted and gives the same number |
| Text.ParseUsizeDecimal | src/helpers.rs:35 | every decimal rendering of a number up to 2^64-1 parses as that number |
| Helpers.ParseChannel | src/helpers.rs:30-44 | an accepted channel is at most MAX_CHANNELS (2); the result is Ok(None) exactly when no argument is given |
| Helpers.ParseChannelDecimal | src/helpers.rs:39-42 | a numeric argument n is accepted as Some(n) exactly when n <= 2 (so 2 is accepted), and is "channel value out of range" otherwise |
| Helpers.ParseChannelInvalid | src/helpers.rs:35-38 | an argument that does not parse as usize gives "invalid channel value" |
| Helpers.ParseChannelExamples | src/helpers.rs:30-44 | no argument, "can0", "", "+" and "-1" are rejected or absent as the source says; "+1" is 1; "3" is out of range |
| SendCmd.RestrictChannels | src/send.rs:17-27 | the loop over the configuration array leaves it equal to Restricted of the old configuration |
| SendCmd.OnlyNamedChannelEnabled | src/send.rs:19-25 | after naming a channel, no other channel is enabled |
| SendCmd.NamedChannelKept | src/send.rs:21-25 | the named channel's entry, including `enabled`, is unchanged |
| SendCmd.RestrictionKeepsSettings | src/send.rs:21-25 | bitrate, loopback and monitor are unchanged everywhere, and no channel becomes enabled |
| SendCmd.RestrictionBeyondConfig | src/send.rs:21-25 | naming a channel past the end of the configuration disables every channel |
| SendCmd.NoChannelNamed | src/send.rs:17-18 | with no channel the configuration is unchanged |
| SendCmd.RestrictionIdempotent | src/send.rs:19-25 | restricting again to the same channel changes nothing |
| SendCmd.SentFrame | src/send.rs:39-42 | every sent frame has dlc 8 and an identifier below 0x800, and keeps the template's channel and data |
| SendCmd.WrappedCounterResidue | src/send.rs:38-44 | wrapping the u32 counter does not change the identifier it yields |
| SendCmd.SentIdsCycle | src/send.rs:42-44 | successive frames carry successive identifiers modulo 0x800 |
| SendCmd.SendLoop | src/send.rs:38-52 | the loop sends one frame per iteration until the stop flag; frame k has identifier k mod 0x800 and dlc 8 |
| Dump.Shown | src/dump.rs:10 | the bytes shown are the first min(can_dlc, data length) data bytes |
| Dump.PrintFrame | src/dump.rs:8-14 | the line built in the loop is the header followed by one field per shown byte |
| Dump.ByteHexWidth | src/dump.rs:11 | a byte takes one or two hex digits before padding |
| Dump.ByteFieldReadsBack | src/dump.rs:11 | each byte is two upper-case hex digits followed by a space, reading back as the byte |
| Dump.IdFieldReadsBack | src/dump.rs:9 | the identifier field is max(3, digit count) wide, ends with the identifier's upper-case hex digits and reads back as the identifier |
| Dump.DataFieldsLayout | src/dump.rs:10-12 | data fields are three characters per byte, in order |
| Dump.FrameLineLength | src/dump.rs:9-12 | the line is the header plus 3 * min(can_dlc, data length) characters |
| Dump.FrameLineIgnoresTail | src/dump.rs:10-12 | bytes at index can_dlc or beyond never affect the line |
| Dump.FrameLineExample | src/dump.rs:9-11 | channel 0, id 0x12, dlc 2, data 0A FF 33 prints "  ch:0  012   [2]  0A FF " |

## Left out

- libusb transfer allocation, submission, cancellation and callbacks, the event thread, and the busy-waits on the pending flags. These are foreign calls and concurrency. The submission status and the device's reply are parameters instead.
- The `transfer.length`, endpoint, timeout and callback fields that `fill_control_transfer` and the bulk fill functions set. They are libusb bookkeeping, not buffer contents.
- Driver.Device.ControlIn: assumes the device's reply is never longer than the requested wLength. libusb guarantees this, and the source relies on it.
- Legacy.Device.ControlIn: assumes the device's reply is never longer than the caller's buffer (the requested wLength). libusb guarantees this, and the source relies on it.
- Driver.Device.FillControlTransfer: requires a payload of at most 56 bytes. A longer payload makes the source's slice out of range, which is a panic, not a result.
- The crossbeam receive channel (`try_recv`/`recv`), and the callback's `send` into it and its `libusb_submit_transfer` call. `Driver.BulkInCallback` returns the frame it would forward and whether it resubmits.
- The rusb `read_control`, `write_control`, `read_bulk` and `write_bulk` wrappers, and opening and claiming the device in `Device::new`. These are calls into a library.
- The C and Python bindings, and the `Interface`, `Frame` and `Channel` types of the driver crate. `CanFrame.Frame` and `SendCmd.Channel` hold only the fields the tools use.
- The feature, mode and frame-flag bit constants, and `CanState`. The code shown never computes with them.
- Configuration file reading and writing, and `apply_to_interface`.
- Ctrl-C handling. The send loop takes the number of iterations after which the flag is seen set.
- Printing and the 10 ms sleep. `print_frame` returns its line, and the send loop's progress line every 1000 frames is not modelled.
- SendCmd.SendLoop: assumes every send succeeds. `i.send(...).unwrap()` panics on a failed send and ends the command; that path is not modelled.
- SendCmd.SendLoop: models the counter as a wrapping u32. A debug build would panic after 2^32 frames. The identifiers are the same either way, because 2^32 is a multiple of 0x800.
- Legacy: the `UsbBreq` codes of `src/device/gsusb.rs` are taken to be the CAN-FD driver's (`GsUsb.BreqCode`). That file is not part of this model.
- Legacy.Device.SetBitTiming, Legacy.Device.SetMode, Legacy.Device.GetDeviceConfig, Legacy.Device.GetBitTimingConsts, Legacy.Device.Send: take or return encoded bytes. `src/device/gsusb.rs` is not part of this model.
- Helpers.ParseChannel: takes the argument's value, or `None` when it is absent, instead of the clap argument matches.

## Findings

| source | as written | input that shows it | evidently intended | confidence | as-written member | corrected member |
|---|---|---|---|---|---|---|
| src/device/mod.rs:274-287 | `control_in` sends the caller's zeroed buffer but never copies the device's reply back into it, and returns Ok(0). `get_timestamp`, `get_device_config` and `get_bit_timing_consts` therefore decode all-zero buffers. | the device answers the timestamp request with bytes 78 56 34 12 | the reply bytes are returned and decoded, timestamp 0x12345678, as the driver generation does (driver/src/device/mod.rs:301-320) | high; not executed | Legacy.TimestampDiscardsReply | Driver.TimestampDecodesReply |
