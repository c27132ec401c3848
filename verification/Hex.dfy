/** Content addresses as text: 64 hexadecimal digits. */
module Hex {
  import opened Prelude

  const WIDTH := 64
  const DIGITS := "0123456789abcdef"

  function Pow16(n: nat): nat { if n == 0 then 1 else 16 * Pow16(n - 1) }

  /** The last `n` hexadecimal digits of `h`, in lower case. */
  function HexText(h: Hash, n: nat): (s: string)
    ensures |s| == n
  {
    if n == 0 then "" else HexText(h / 16, n - 1) + [DIGITS[h % 16]]
  }

  function ToHex(h: Hash): (s: string)
    ensures |s| == WIDTH
  {
    HexText(h, WIDTH)
  }

  /** The first seven digits, for messages. */
  function Short(h: Hash): string { ToHex(h)[..7] }

  /** Either case is read. */
  function DigitOf(c: char): Option<nat> {
    if '0' <= c <= '9' then Some(c as int - '0' as int)
    else if 'a' <= c <= 'f' then Some(c as int - 'a' as int + 10)
    else if 'A' <= c <= 'F' then Some(c as int - 'A' as int + 10)
    else None
  }

  function ReadHex(s: string): Option<Hash> {
    if s == "" then Some(0)
    else match (ReadHex(s[..|s| - 1]), DigitOf(s[|s| - 1]))
         case (Some(front), Some(d)) => Some(16 * front + d)
         case _ => None
  }

  /** A name is an address exactly if it is 64 hexadecimal digits. */
  function FromHex(s: string): Option<Hash> { if |s| == WIDTH then ReadHex(s) else None }

  lemma DigitReads(d: nat)
    requires d < 16
    ensures DigitOf(DIGITS[d]) == Some(d)
  {
    assert DIGITS[0] == '0' && DIGITS[1] == '1' && DIGITS[2] == '2' && DIGITS[3] == '3' && DIGITS[4] == '4';
    assert DIGITS[5] == '5' && DIGITS[6] == '6' && DIGITS[7] == '7' && DIGITS[8] == '8' && DIGITS[9] == '9';
    assert DIGITS[10] == 'a' && DIGITS[11] == 'b' && DIGITS[12] == 'c' && DIGITS[13] == 'd' && DIGITS[14] == 'e';
    assert DIGITS[15] == 'f';
  }

  /** The case of a digit does not matter. */
  lemma CaseAside(d: nat)
    requires 10 <= d < 16
    ensures DigitOf(('A' as int + d - 10) as char) == Some(d) == DigitOf(('a' as int + d - 10) as char)
  {
  }

  lemma {:induction false} TextReads(h: Hash, n: nat)
    requires h < Pow16(n)
    ensures ReadHex(HexText(h, n)) == Some(h)
  {
    if n > 0 {
      TextReads(h / 16, n - 1);
      DigitReads(h % 16);
      var s := HexText(h, n);
      assert s[..|s| - 1] == HexText(h / 16, n - 1);
    }
  }

  /** An address written out names itself. */
  lemma AddressReads(h: Hash)
    requires h < Pow16(WIDTH)
    ensures FromHex(ToHex(h)) == Some(h)
  {
    TextReads(h, WIDTH);
  }

  ghost predicate AllDigits(s: string) { forall i :: 0 <= i < |s| ==> DigitOf(s[i]).Some? }

  lemma {:induction false} ReadsIff(s: string)
    ensures ReadHex(s).Some? <==> AllDigits(s)
    ensures ReadHex(s).Some? ==> ReadHex(s).value < Pow16(|s|)
  {
    hide DigitOf;
    if s != "" {
      ReadsIff(s[..|s| - 1]);
      DigitRange(s[|s| - 1]);
    }
  }

  lemma DigitRange(c: char)
    ensures DigitOf(c).Some? ==> DigitOf(c).value < 16
    ensures DigitOf(c).Some? <==> '0' <= c <= '9' || 'a' <= c <= 'f' || 'A' <= c <= 'F'
  {
  }

  /** Exactly the 64-digit names are read as addresses, and every one of them is one. */
  lemma NamesAddressIff(s: string)
    ensures FromHex(s).Some? <==>
      |s| == 64 && forall i :: 0 <= i < |s| ==> '0' <= s[i] <= '9' || 'a' <= s[i] <= 'f' || 'A' <= s[i] <= 'F'
    ensures FromHex(s).Some? ==> FromHex(s).value < Pow16(WIDTH)
  {
    hide DigitOf;
    ReadsIff(s);
    forall i | 0 <= i < |s|
      ensures DigitOf(s[i]).Some? <==> '0' <= s[i] <= '9' || 'a' <= s[i] <= 'f' || 'A' <= s[i] <= 'F'
    {
      DigitRange(s[i]);
    }
  }
}
