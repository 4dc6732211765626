/** Passable-props keys: `passPropsId.toString(16)`, left-padded with one "0" when
    its length is odd (dist/core.mjs:50-54, src/renderer.mjs:50-54). */
module HexKeys {

  /** The lower-case hexadecimal digit of `d`, as `Number.prototype.toString(16)` writes it. */
  function Digit(d: nat): (c: char)
    requires d < 16
    ensures IsHexDigit(c) && DigitValue(c) == d
  {
    if d < 10 then ('0' as int + d) as char else ('a' as int + d - 10) as char
  }

  predicate IsHexDigit(c: char) {
    '0' <= c <= '9' || 'a' <= c <= 'f'
  }

  function DigitValue(c: char): (d: nat)
    requires IsHexDigit(c)
    ensures d < 16
  {
    if '0' <= c <= '9' then c as int - '0' as int else c as int - 'a' as int + 10
  }

  predicate IsHex(s: string) {
    forall i :: 0 <= i < |s| ==> IsHexDigit(s[i])
  }

  /** `n.toString(16)`: the shortest lower-case hexadecimal numeral of `n`. */
  function ToHex(n: nat): (s: string)
    ensures |s| >= 1 && IsHex(s)
    ensures n > 0 ==> s[0] != '0'
    decreases n
  {
    if n < 16 then [Digit(n)] else ToHex(n / 16) + [Digit(n % 16)]
  }

  /** The value of a hexadecimal numeral, most significant digit first. */
  function FromHex(s: string): nat
    requires IsHex(s)
  {
    if s == [] then 0 else FromHex(s[..|s| - 1]) * 16 + DigitValue(s[|s| - 1])
  }

  /** The key `addPassableProps` hands out for counter value `n`. */
  function PropsKey(n: nat): (k: string)
    ensures |k| % 2 == 0 && IsHex(k)
    ensures FromHex(k) == n
  {
    var h := ToHex(n);
    FromHexToHex(n);
    if |h| % 2 == 1 then
      LeadingZero(h);
      "0" + h
    else
      h
  }

  lemma {:induction false} FromHexToHex(n: nat)
    ensures FromHex(ToHex(n)) == n
    decreases n
  {
    if n >= 16 {
      FromHexToHex(n / 16);
      var h := ToHex(n);
      assert h[..|h| - 1] == ToHex(n / 16);
    }
  }

  /** A leading "0" does not change the value of a numeral. */
  lemma {:induction false} LeadingZero(s: string)
    requires IsHex(s)
    ensures IsHex("0" + s) && FromHex("0" + s) == FromHex(s)
    decreases |s|
  {
    var z := "0" + s;
    if s != [] {
      LeadingZero(s[..|s| - 1]);
      assert z[..|z| - 1] == "0" + s[..|s| - 1];
    }
  }

  /** Distinct counter values give distinct keys. */
  lemma KeysDistinct(m: nat, n: nat)
    requires m != n
    ensures PropsKey(m) != PropsKey(n)
  {
  }

  /** The counter starts at 100000 = 0x186a0, whose numeral has odd length, so the
      first key ever handed out is "0186a0". */
  lemma FirstKey()
    ensures PropsKey(100000) == "0186a0"
  {
    assert ToHex(1) == "1";
    assert ToHex(24) == ToHex(1) + "8";
    assert ToHex(390) == ToHex(24) + "6";
    assert ToHex(6250) == ToHex(390) + "a";
    assert ToHex(100000) == ToHex(6250) + "0";
  }
}
