/** Text helpers for the JavaScript string behaviour the application relies on. */
module Strings {
  import opened Wrappers

  /** The decimal digit character for `d`. */
  function DigitChar(d: nat): (c: char)
    requires d < 10
    ensures '0' <= c <= '9'
  {
    "0123456789"[d]
  }

  /** `n.toString()` for a non-negative integer: decimal digits, no leading zero. */
  function NatToString(n: nat): (r: string)
    ensures 1 <= |r|
    ensures forall c :: c in r ==> '0' <= c <= '9'
    ensures n >= 10 ==> 2 <= |r|
    decreases n
  {
    if n < 10 then [DigitChar(n)] else NatToString(n / 10) + [DigitChar(n % 10)]
  }

  lemma DigitCharInjective(a: nat, b: nat)
    requires a < 10 && b < 10
    ensures DigitChar(a) == DigitChar(b) ==> a == b
  {
  }

  /** Different numbers print differently, so distinct clock readings give distinct ids. */
  lemma {:induction false} NatToStringInjective(m: nat, n: nat)
    ensures NatToString(m) == NatToString(n) ==> m == n
    decreases m
  {
    if NatToString(m) == NatToString(n) {
      if m < 10 && n < 10 {
        DigitCharInjective(m, n);
      } else if m >= 10 && n >= 10 {
        var a, b := NatToString(m), NatToString(n);
        assert a[..|a| - 1] == NatToString(m / 10);
        assert b[..|b| - 1] == NatToString(n / 10);
        NatToStringInjective(m / 10, n / 10);
        DigitCharInjective(m % 10, n % 10);
      }
    }
  }

  /** JavaScript truthiness of a value that is either missing or a string: present and non-empty. */
  predicate Truthy(o: Option<string>)
  {
    o.Some? && o.value != ""
  }

  /** `a || b` where both operands are optional strings, as rendered: a missing value shows as "". */
  function OrElse(a: Option<string>, b: Option<string>): (r: string)
    ensures Truthy(a) ==> r == a.value
    ensures !Truthy(a) && b.Some? ==> r == b.value
    ensures !Truthy(a) && b.None? ==> r == ""
  {
    if Truthy(a) then a.value else if b.Some? then b.value else ""
  }

  /** A missing value renders as the empty string. */
  function Display(o: Option<string>): string
  {
    if o.Some? then o.value else ""
  }

  function LowerChar(c: char): char
  {
    if 'A' <= c <= 'Z' then (c as int - 'A' as int + 'a' as int) as char else c
  }

  /** `s.toLowerCase()` on the ASCII letters. */
  function AsciiLower(s: string): (r: string)
    ensures |r| == |s|
    ensures forall i :: 0 <= i < |s| ==> r[i] == LowerChar(s[i])
  {
    seq(|s|, i requires 0 <= i < |s| => LowerChar(s[i]))
  }

  /** Lower-casing twice is lower-casing once. */
  lemma AsciiLowerIdempotent(s: string)
    ensures AsciiLower(AsciiLower(s)) == AsciiLower(s)
  {
  }
}
