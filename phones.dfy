/**
 * The two phone-number rewrites of the M-Pesa functions. Safaricom sends
 * and expects the international form `2547…`; tenants' numbers are stored
 * as typed on the tenants page, usually `07…`.
 */
module Phones {

  import opened Seqs
  import opened Text

  /**
   * The callback's `phone.replace(/^254/, '0')`: the country code becomes a
   * leading 0, anything else is left alone.
   */
  function StripCountryCode(phone: string): (r: string)
    ensures StartsWith(phone, "254") ==> r == "0" + phone[3..]
    ensures !StartsWith(phone, "254") ==> r == phone
  {
    if StartsWith(phone, "254") then "0" + phone[3..] else phone
  }

  /** The simulator's prefix rewrite: a leading 0 becomes the country code, or else a leading `+` is dropped. */
  function PrefixRewrite(s: string): (r: string)
  {
    if StartsWith(s, "0") then "254" + s[1..]
    else if StartsWith(s, "+") then s[1..]
    else s
  }

  /**
   * The simulator's rewrite: white space removed, then one of the two
   * prefix rewrites; only one of them applies.
   */
  function InternationalForm(phone: string): (r: string)
  {
    PrefixRewrite(RemoveSpaces(phone))
  }

  /** A string starts with a one-character prefix exactly when its first character is that one. */
  lemma StartsWithChar(s: string, c: char)
    ensures StartsWith(s, [c]) <==> |s| >= 1 && s[0] == c
  {
    if |s| >= 1 {
      assert s[..1] == [s[0]];
    }
  }

  /** The prefix rewrite adds no white space. */
  lemma PrefixRewriteNoSpaces(s: string)
    requires forall i :: 0 <= i < |s| ==> !IsSpace(s[i])
    ensures forall i :: 0 <= i < |PrefixRewrite(s)| ==> !IsSpace(PrefixRewrite(s)[i])
  {
    var r := PrefixRewrite(s);
    forall i | 0 <= i < |r| ensures !IsSpace(r[i]) {
      if StartsWith(s, "0") {
        if i >= 3 { assert r[i] == s[i - 2]; }
      } else if StartsWith(s, "+") {
        assert r[i] == s[i + 1];
      }
    }
  }

  /** The rewritten number never contains white space. */
  lemma InternationalFormHasNoSpaces(phone: string)
    ensures forall i :: 0 <= i < |InternationalForm(phone)| ==> !IsSpace(InternationalForm(phone)[i])
  {
    PrefixRewriteNoSpaces(RemoveSpaces(phone));
  }

  /** Numbers that start with neither 0 nor `+` only lose their white space. */
  lemma InternationalFormOtherwise(phone: string)
    requires !StartsWith(RemoveSpaces(phone), "0") && !StartsWith(RemoveSpaces(phone), "+")
    ensures InternationalForm(phone) == RemoveSpaces(phone)
  {
  }

  /** `+0…` only loses its `+`. */
  lemma PrefixRewritePlusZero(s: string)
    requires StartsWith(s, "+0")
    ensures PrefixRewrite(s) == s[1..]
    ensures StartsWith(PrefixRewrite(s), "0")
  {
    assert s[..2] == "+0";
    assert s[0] == '+' && s[1] == '0';
    StartsWithChar(s, '0');
    StartsWithChar(s, '+');
    StartsWithChar(s[1..], '0');
  }

  /** `+0…` only loses its `+`: the leading 0 is not rewritten in the same call. */
  lemma PlusZeroKeepsZero(phone: string)
    requires StartsWith(RemoveSpaces(phone), "+0")
    ensures InternationalForm(phone) == RemoveSpaces(phone)[1..]
    ensures StartsWith(InternationalForm(phone), "0")
  {
    PrefixRewritePlusZero(RemoveSpaces(phone));
  }

  /** The callback's rewrite undoes the prefix rewrite of a `0…` string. */
  lemma PrefixRewriteUndone(s: string)
    requires StartsWith(s, "0")
    ensures StripCountryCode(PrefixRewrite(s)) == s
  {
    var r := PrefixRewrite(s);
    assert r == "254" + s[1..];
    assert StartsWith(r, "254") by { assert r[..3] == "254"; }
    assert r[3..] == s[1..];
    StartsWithChar(s, '0');
    assert s == [s[0]] + s[1..];
  }

  /**
   * A local number written `0…` survives the round trip through both
   * rewrites: into the international form for Safaricom and back into the
   * stored local form by the callback.
   */
  lemma LocalNumberRoundTrip(phone: string)
    requires StartsWith(RemoveSpaces(phone), "0")
    ensures StripCountryCode(InternationalForm(phone)) == RemoveSpaces(phone)
  {
    PrefixRewriteUndone(RemoveSpaces(phone));
  }
}
