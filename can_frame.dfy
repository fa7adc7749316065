/**
 * The fields of the driver crate's `Frame` that the command-line tools read or
 * write. The crate's own definition is not part of this model.
 */
module CanFrame {
  import opened Bytes

  datatype Frame = Frame(channel: byte, canId: u32, canDlc: byte, data: seq<byte>)
}
