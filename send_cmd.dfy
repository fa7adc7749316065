/**
 * The `send` command: restricting the configured channels to the one named on
 * the command line, and the loop that sends frames with a rolling identifier.
 */
module SendCmd {
  import opened Bytes
  import opened Wrappers
  import opened CanFrame

  /** One configured channel, as read from the configuration file. */
  datatype Channel = Channel(bitrate: u32, loopback: bool, monitor: bool, enabled: bool)

  /**
   * The configuration after naming channel `ch`: every other entry is disabled
   * and nothing else is touched. With no channel named the list is kept.
   */
  function Restricted(chs: seq<Channel>, ch: Option<nat>): (r: seq<Channel>)
    ensures |r| == |chs|
  {
    seq(|chs|, n requires 0 <= n < |chs| =>
      if ch.Some? && n != ch.value then chs[n].(enabled := false) else chs[n])
  }

  /** In-place restriction of the configured channel list. */
  method RestrictChannels(channels: array<Channel>, ch: Option<nat>)
    modifies channels
    ensures channels[..] == Restricted(old(channels[..]), ch)
  {
    if ch.Some? {
      for n := 0 to channels.Length
        invariant forall k :: 0 <= k < n ==> channels[k] == Restricted(old(channels[..]), ch)[k]
        invariant forall k :: n <= k < channels.Length ==> channels[k] == old(channels[k])
      {
        if n != ch.value {
          channels[n] := channels[n].(enabled := false);
        }
      }
    }
  }

  /** After naming a channel, no other channel is enabled. */
  lemma OnlyNamedChannelEnabled(chs: seq<Channel>, ch: nat, n: nat)
    requires n < |chs| && Restricted(chs, Some(ch))[n].enabled
    ensures n == ch
  {
  }

  /** The named channel keeps its configuration, enabled or not. */
  lemma NamedChannelKept(chs: seq<Channel>, ch: nat)
    requires ch < |chs|
    ensures Restricted(chs, Some(ch))[ch] == chs[ch]
  {
  }

  /** Restriction only clears `enabled`: bitrate and modes are kept everywhere. */
  lemma RestrictionKeepsSettings(chs: seq<Channel>, ch: Option<nat>, n: nat)
    requires n < |chs|
    ensures Restricted(chs, ch)[n] == chs[n].(enabled := Restricted(chs, ch)[n].enabled)
    ensures Restricted(chs, ch)[n].enabled ==> chs[n].enabled
  {
  }

  /** Naming a channel past the end of the configuration disables them all. */
  lemma RestrictionBeyondConfig(chs: seq<Channel>, ch: nat)
    requires ch >= |chs|
    ensures forall n :: 0 <= n < |chs| ==> !Restricted(chs, Some(ch))[n].enabled
  {
  }

  /** With no channel named the configuration is followed as it is. */
  lemma NoChannelNamed(chs: seq<Channel>)
    ensures Restricted(chs, None) == chs
  {
  }

  /** Restricting twice to the same channel is the same as restricting once. */
  lemma RestrictionIdempotent(chs: seq<Channel>, ch: Option<nat>)
    ensures Restricted(Restricted(chs, ch), ch) == Restricted(chs, ch)
  {
  }

  /** Modulus of the `u32` counter. */
  const U32_MODULUS: nat := 0x1_0000_0000

  /** Number of distinct standard (11-bit) identifiers. */
  const STANDARD_ID_COUNT: nat := 0x800

  /** The `k`-th frame sent: the template with identifier `k mod 0x800` and length 8. */
  function SentFrame(template: Frame, k: nat): (f: Frame)
    ensures f.canId < STANDARD_ID_COUNT && f.canDlc == 8
    ensures f.channel == template.channel && f.data == template.data
  {
    template.(canId := k % STANDARD_ID_COUNT, canDlc := 8)
  }

  /** Reducing the `u32` counter first does not change its residue modulo 0x800. */
  lemma {:induction false} WrappedCounterResidue(k: nat)
    ensures (k % U32_MODULUS) % STANDARD_ID_COUNT == k % STANDARD_ID_COUNT
  {
    var q := k / U32_MODULUS;
    assert k == q * U32_MODULUS + k % U32_MODULUS;
    assert q * U32_MODULUS == (q * 0x20_0000) * STANDARD_ID_COUNT;
  }

  /**
   * Successive frames carry successive identifiers, wrapping from 0x7FF to 0,
   * and the sequence repeats every 0x800 frames.
   */
  lemma SentIdsCycle(template: Frame, k: nat)
    ensures SentFrame(template, k + 1).canId == (SentFrame(template, k).canId + 1) % STANDARD_ID_COUNT
    ensures SentFrame(template, k + STANDARD_ID_COUNT) == SentFrame(template, k)
  {
  }

  /**
   * The send loop. `template` is the default frame; the interrupt flag is
   * observed set after `stopAfter + 1` sends, which is when the loop leaves.
   * The counter is a `u32`, so it wraps.
   */
  method SendLoop(template: Frame, stopAfter: nat) returns (sent: seq<Frame>)
    ensures |sent| == stopAfter + 1
    ensures forall k :: 0 <= k < |sent| ==> sent[k] == SentFrame(template, k)
  {
    var count: u32 := 0;
    var f := template.(canDlc := 8);
    sent := [];
    while true
      invariant |sent| <= stopAfter
      invariant count == |sent| % U32_MODULUS
      invariant f == template.(canDlc := 8, canId := f.canId)
      invariant forall k :: 0 <= k < |sent| ==> sent[k] == SentFrame(template, k)
      decreases stopAfter - |sent|
    {
      f := f.(canId := count % STANDARD_ID_COUNT as u32);
      WrappedCounterResidue(|sent|);
      sent := sent + [f];
      count := (count + 1) % U32_MODULUS;
      if |sent| == stopAfter + 1 {
        break;
      }
    }
  }
}
