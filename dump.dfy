/** The `dump` command's rendering of one received frame as a line of text. */
module Dump {
  import opened Bytes
  import opened Text
  import opened CanFrame

  /** The data bytes shown: the first `can_dlc` of them, or all if there are fewer. */
  function Shown(f: Frame): (bs: seq<byte>)
    ensures |bs| <= f.canDlc as int && |bs| <= |f.data|
    ensures bs == f.data[..|bs|]
    ensures |bs| == f.canDlc as int || bs == f.data
  {
    if f.canDlc as int <= |f.data| then f.data[..f.canDlc] else f.data
  }

  /** The identifier column: upper-case hex, at least three digits. */
  function IdField(id: nat): string
  {
    PadZeros(UpperHex(id), 3)
  }

  /** The line's fixed part: channel, identifier and length. */
  function FrameHeader(f: Frame): string
  {
    "  ch:" + Decimal(f.channel as nat) + "  " + IdField(f.canId as nat)
      + "   [" + Decimal(f.canDlc as nat) + "]  "
  }

  /** One data byte: two upper-case hex digits and a space. */
  function ByteField(b: byte): string
  {
    PadZeros(UpperHex(b as nat), 2) + " "
  }

  /** The byte fields of `bs`, in order. */
  function DataFields(bs: seq<byte>): string
  {
    if bs == [] then "" else DataFields(bs[..|bs| - 1]) + ByteField(bs[|bs| - 1])
  }

  /** The whole line printed for `f`. */
  function FrameLine(f: Frame): string
  {
    FrameHeader(f) + DataFields(Shown(f))
  }

  /** `print_frame`: builds the line field by field. */
  method PrintFrame(f: Frame) returns (s: string)
    ensures s == FrameLine(f)
  {
    var header := FrameHeader(f);
    var shown := Shown(f);
    var fields := "";
    for i := 0 to |shown|
      invariant fields == DataFields(shown[..i])
    {
      assert shown[..i + 1][..i] == shown[..i];
      fields := fields + ByteField(shown[i]);
    }
    assert shown[..|shown|] == shown;
    s := header + fields;
  }

  /** A byte needs at most two hex digits. */
  lemma {:induction false} ByteHexWidth(n: nat)
    requires n < 0x100
    ensures 1 <= |UpperHex(n)| <= 2
  {
    if n >= 16 {
      assert UpperHex(n) == Digits(n / 16, 16) + [DigitChar(n % 16)];
      assert Digits(n / 16, 16) == [DigitChar(n / 16)];
    }
  }

  /**
   * A byte field is exactly two upper-case hex digits followed by a space, and
   * the digits read back as the byte.
   */
  lemma {:induction false} ByteFieldReadsBack(b: byte)
    ensures |ByteField(b)| == 3 && ByteField(b)[2] == ' '
    ensures AllDigits(ByteField(b)[..2], 16)
    ensures Value(ByteField(b)[..2], 16) == b as nat
  {
    var h := UpperHex(b as nat);
    ByteHexWidth(b as nat);
    DigitsAreDigits(b as nat, 16);
    DigitsValue(b as nat, 16);
    PadZerosValue(h, 2, 16);
    assert ByteField(b)[..2] == PadZeros(h, 2);
  }

  /**
   * The identifier column is the identifier's hex digits, left-padded with
   * zeros to three when shorter; it reads back as the identifier, and
   * identifiers above 0xFFF are shown in full.
   */
  lemma {:induction false} IdFieldReadsBack(id: nat)
    ensures |IdField(id)| == if |UpperHex(id)| >= 3 then |UpperHex(id)| else 3
    ensures IdField(id)[|IdField(id)| - |UpperHex(id)|..] == UpperHex(id)
    ensures AllDigits(IdField(id), 16)
    ensures Value(IdField(id), 16) == id
  {
    DigitsAreDigits(id, 16);
    DigitsValue(id, 16);
    PadZerosValue(UpperHex(id), 3, 16);
  }

  /** Three characters per byte, byte `i` in columns `3i .. 3i+3`. */
  lemma {:induction false} DataFieldsLayout(bs: seq<byte>)
    ensures |DataFields(bs)| == 3 * |bs|
    ensures forall i :: 0 <= i < |bs| ==> DataFields(bs)[3 * i..3 * i + 3] == ByteField(bs[i])
  {
    if bs != [] {
      var init, last := bs[..|bs| - 1], bs[|bs| - 1];
      DataFieldsLayout(init);
      ByteFieldReadsBack(last);
      var d, bf := DataFields(init), ByteField(last);
      assert DataFields(bs) == d + bf;
      forall i | 0 <= i < |bs|
        ensures (d + bf)[3 * i..3 * i + 3] == ByteField(bs[i])
      {
        if i < |init| {
          assert (d + bf)[3 * i..3 * i + 3] == d[3 * i..3 * i + 3];
          assert bs[i] == init[i];
        } else {
          assert (d + bf)[3 * i..3 * i + 3] == bf;
        }
      }
    }
  }

  /**
   * The line has one field per shown byte: `min(can_dlc, data length)` of them,
   * so bytes past the length code never appear.
   */
  lemma FrameLineLength(f: Frame)
    ensures |FrameLine(f)| == |FrameHeader(f)| + 3 * |Shown(f)|
    ensures |Shown(f)| == if f.canDlc as int <= |f.data| then f.canDlc as int else |f.data|
  {
    DataFieldsLayout(Shown(f));
  }

  /** Two frames differing only in bytes past the length code print the same line. */
  lemma FrameLineIgnoresTail(f: Frame, g: Frame)
    requires f.channel == g.channel && f.canId == g.canId && f.canDlc == g.canDlc
    requires f.canDlc as int <= |f.data| && f.canDlc as int <= |g.data|
    requires f.data[..f.canDlc] == g.data[..g.canDlc]
    ensures FrameLine(f) == FrameLine(g)
  {
  }

  /** The line for a standard frame on channel 0 with two data bytes. */
  lemma FrameLineExample()
    ensures FrameLine(Frame(0, 0x12, 2, [0x0A, 0xFF, 0x33])) == "  ch:0  012   [2]  0A FF "
  {
    var f := Frame(0, 0x12, 2, [0x0A, 0xFF, 0x33]);
    assert Shown(f) == [0x0A, 0xFF];
    ExampleHeader();
    ExampleFields();
  }

  lemma ExampleHeader()
    ensures FrameHeader(Frame(0, 0x12, 2, [0x0A, 0xFF, 0x33])) == "  ch:0  012   [2]  "
  {
    assert Decimal(0) == "0";
    assert Decimal(2) == "2";
    assert UpperHex(0x12) == "12" by { assert UpperHex(0x12) == Digits(1, 16) + [DigitChar(2)]; }
    assert IdField(0x12) == "012";
  }

  lemma ExampleFields()
    ensures DataFields([0x0A, 0xFF]) == "0A FF "
  {
    assert UpperHex(0x0A) == "A";
    assert ByteField(0x0A) == "0A ";
    assert UpperHex(0xFF) == "FF" by { assert UpperHex(0xFF) == Digits(15, 16) + [DigitChar(15)]; }
    assert ByteField(0xFF) == "FF ";
    assert [0x0A, 0xFF][..1] == [0x0A];
    assert DataFields([0x0A]) == "0A " by { assert [0x0A][..0] == []; }
  }
}
