/** Validation of the `channel` command-line argument. */
module Helpers {
  import opened Wrappers
  import opened Text

  /** Largest channel number the tools accept. */
  const MAX_CHANNELS: nat := 2

  datatype CliError = InvalidArgument(message: string)

  /**
   * `parse_channel`: no argument means no channel; otherwise the value must parse
   * as a `usize` and be at most MAX_CHANNELS.
   */
  function ParseChannel(arg: Option<string>): (r: Result<Option<nat>, CliError>)
    ensures r.Ok? && r.value.Some? ==> r.value.value <= MAX_CHANNELS
    ensures r == Ok(None) <==> arg.None?
  {
    if arg.None? then Ok(None)
    else
      match ParseUsize(arg.value)
      case None => Err(InvalidArgument("invalid channel value"))
      case Some(ch) =>
        if ch > MAX_CHANNELS then Err(InvalidArgument("channel value out of range"))
        else Ok(Some(ch))
  }

  /**
   * The decimal rendering of a channel number is accepted exactly when the
   * number is at most 2 (so 0, 1 and 2 are all accepted), and rejected as out of
   * range otherwise.
   */
  lemma {:induction false} ParseChannelDecimal(n: nat)
    requires n <= USIZE_MAX
    ensures n <= MAX_CHANNELS ==> ParseChannel(Some(Decimal(n))) == Ok(Some(n))
    ensures n > MAX_CHANNELS ==> ParseChannel(Some(Decimal(n))) == Err(InvalidArgument("channel value out of range"))
  {
    ParseUsizeDecimal(n);
  }

  /** A value that is not a number, or is too big for `usize`, is an invalid value. */
  lemma ParseChannelInvalid(s: string)
    requires ParseUsize(s).None?
    ensures ParseChannel(Some(s)) == Err(InvalidArgument("invalid channel value"))
  {
  }

  /** Concrete arguments: none, a word, an empty string, a sign alone, and 3. */
  lemma ParseChannelExamples()
    ensures ParseChannel(None) == Ok(None)
    ensures ParseChannel(Some("can0")) == Err(InvalidArgument("invalid channel value"))
    ensures ParseChannel(Some("")) == Err(InvalidArgument("invalid channel value"))
    ensures ParseChannel(Some("+")) == Err(InvalidArgument("invalid channel value"))
    ensures ParseChannel(Some("-1")) == Err(InvalidArgument("invalid channel value"))
    ensures ParseChannel(Some("+1")) == Ok(Some(1))
    ensures ParseChannel(Some("3")) == Err(InvalidArgument("channel value out of range"))
  {
    assert !IsDigit('c', 10);
    assert !IsDigit('-', 10);
    assert "+1"[1..] == "1";
    assert Value("1", 10) == 1 by { assert "1"[..0] == []; }
    assert Value("3", 10) == 3 by { assert "3"[..0] == []; }
  }
}
