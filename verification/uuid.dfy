/**
 * Version-4 UUIDs as used for `redemption_uuid` and `Promotion.uuid`: a
 * 128-bit number whose text form is 32 lower-case hexadecimal digits in
 * groups of 8-4-4-4-12 (section 3 of RFC 4122), which is also what the
 * URL converter `<uuid:...>` accepts.
 */
module Uuid {
  import opened Wrappers
  import Text

  /** 2^128, the number of 128-bit values. */
  const Bound: nat := 0x1_0000_0000_0000_0000_0000_0000_0000_0000

  /** 32 hexadecimal digits hold exactly the values below the bound. */
  lemma BoundIsPow()
    ensures Bound == Text.Pow(16, 32)
  {
    assert Text.Pow(16, 1) == 16;
    Text.PowAdd(16, 1, 1);
    Text.PowAdd(16, 2, 2);
    Text.PowAdd(16, 4, 4);
    Text.PowAdd(16, 8, 8);
    Text.PowAdd(16, 16, 16);
  }

  type Token = x: nat | x < Bound

  /** The canonical text form, as Python's `str(uuid)`. */
  function UuidText(t: Token): (s: string)
    ensures |s| == 36
  {
    BoundIsPow();
    var h := Text.Fixed(t, 32, 16);
    h[..8] + "-" + h[8..12] + "-" + h[12..16] + "-" + h[16..20] + "-" + h[20..]
  }

  /** Parses the canonical text form; anything else is rejected. */
  function ParseUuid(s: string): Option<Token> {
    if |s| == 36 && s[8] == '-' && s[13] == '-' && s[18] == '-' && s[23] == '-' then
      var h := s[..8] + s[9..13] + s[14..18] + s[19..23] + s[24..];
      if Text.AllDigits(h, 16) then
        Text.ValueOfBound(h, 16);
        BoundIsPow();
        Some(Text.ValueOf(h, 16))
      else None
    else None
  }

  /** Reading the text form back gives the same token. */
  lemma UuidRoundTrip(t: Token)
    ensures ParseUuid(UuidText(t)) == Some(t)
  {
    BoundIsPow();
    var h := Text.Fixed(t, 32, 16);
    var s := UuidText(t);
    assert s[..8] == h[..8];
    assert s[9..13] == h[8..12];
    assert s[14..18] == h[12..16];
    assert s[19..23] == h[16..20];
    assert s[24..] == h[20..];
    assert h[..8] + h[8..12] + h[12..16] + h[16..20] + h[20..] == h;
    Text.FixedRoundTrip(t, 32, 16);
  }

  /** Distinct tokens have distinct text forms. */
  lemma UuidTextInjective(a: Token, b: Token)
    requires UuidText(a) == UuidText(b)
    ensures a == b
  {
    UuidRoundTrip(a);
    UuidRoundTrip(b);
  }
}
