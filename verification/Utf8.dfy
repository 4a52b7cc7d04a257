/** Well-formed UTF-8 (table 3-7 of the Unicode Standard), as `BufRead::lines` checks it. */
module Utf8 {

  type Byte = b: int | 0 <= b < 256

  /** A byte that can only continue a character. */
  predicate IsContinuation(b: Byte) { 0x80 <= b < 0xC0 }

  /** Length of the well-formed character at the front of `s`, 0 when there is none. */
  function CharWidth(s: seq<Byte>): (w: nat)
    ensures w <= |s| && w <= 4
  {
    if s == [] then 0
    else if s[0] < 0x80 then 1
    else if 0xC2 <= s[0] < 0xE0 then
      if |s| >= 2 && IsContinuation(s[1]) then 2 else 0
    else if 0xE0 <= s[0] < 0xF0 then
      if |s| >= 3 && SecondOk(s[0], s[1]) && IsContinuation(s[2]) then 3 else 0
    else if 0xF0 <= s[0] < 0xF5 then
      if |s| >= 4 && SecondOk(s[0], s[1]) && IsContinuation(s[2]) && IsContinuation(s[3]) then 4 else 0
    else 0
  }

  /** The second byte excludes overlong forms, surrogates and code points past U+10FFFF. */
  predicate SecondOk(lead: Byte, second: Byte) {
    && IsContinuation(second)
    && (lead == 0xE0 ==> second >= 0xA0)
    && (lead == 0xED ==> second < 0xA0)
    && (lead == 0xF0 ==> second >= 0x90)
    && (lead == 0xF4 ==> second < 0x90)
  }

  predicate Valid(s: seq<Byte>)
    decreases |s|
  {
    s == [] || (CharWidth(s) > 0 && Valid(s[CharWidth(s)..]))
  }

  /** A prefix shows the same first character if it holds all of it, and no character otherwise. */
  lemma CharWidthPrefix(s: seq<Byte>, k: nat)
    requires CharWidth(s) > 0 && k <= |s|
    ensures CharWidth(s[..k]) == if k < CharWidth(s) then 0 else CharWidth(s)
    ensures forall j :: 0 < j < CharWidth(s) ==> IsContinuation(s[j])
    ensures !IsContinuation(s[0])
  {
    var p := s[..k];
    assert forall j :: 0 <= j < k ==> p[j] == s[j];
  }

  /** Cutting valid text leaves valid text exactly when the cut does not split a character. */
  lemma {:induction false} ValidPrefix(s: seq<Byte>, k: nat)
    requires Valid(s) && k <= |s|
    ensures Valid(s[..k]) <==> k == |s| || !IsContinuation(s[k])
    decreases |s|
  {
    if s != [] {
      var w := CharWidth(s);
      CharWidthPrefix(s, k);
      hide CharWidth;
      if w <= k {
        ValidPrefix(s[w..], k - w);
        assert s[..k][w..] == s[w..][..k - w];
      }
    }
  }

  // ---------------------------------------------------------------- characters and code points

  /** A Unicode scalar value: any code point but a surrogate. */
  predicate Scalar(cp: nat) { cp < 0xD800 || 0xE000 <= cp < 0x11_0000 }

  /** The bytes of a code point, six bits in each continuation byte (section 3 of RFC 3629). */
  function Encode(cp: nat): (s: seq<Byte>)
    requires Scalar(cp)
  {
    if cp < 0x80 then [cp]
    else if cp < 0x800 then [0xC0 + cp / 64, 0x80 + cp % 64]
    else if cp < 0x1_0000 then [0xE0 + cp / 4096, 0x80 + cp / 64 % 64, 0x80 + cp % 64]
    else [0xF0 + cp / 262144, 0x80 + cp / 4096 % 64, 0x80 + cp / 64 % 64, 0x80 + cp % 64]
  }

  /** The bytes by their six-bit digits. */
  lemma EncodedDigits(cp: nat)
    requires Scalar(cp) && cp >= 0x80
    ensures var m, low := cp / 64, cp % 64;
            Encode(cp) == if cp < 0x800 then [0xC0 + m, 0x80 + low]
                          else if cp < 0x1_0000 then [0xE0 + m / 64, 0x80 + m % 64, 0x80 + low]
                          else [0xF0 + m / 64 / 64, 0x80 + m / 64 % 64, 0x80 + m % 64, 0x80 + low]
  {
    Digits(cp, cp / 64);
  }

  lemma EncodedWidth(cp: nat)
    requires Scalar(cp)
    ensures CharWidth(Encode(cp)) == |Encode(cp)|
  {
    if cp >= 0x80 {
      EncodedDigits(cp);
      hide Encode;
      var m, low := cp / 64, cp % 64;
      var high, mid := m / 64, m % 64;
      assert cp == m * 64 + low && m == high * 64 + mid;
      if cp >= 0x1_0000 {
        var top, next := high / 64, high % 64;
        assert high == top * 64 + next && 16 <= high < 0x110;
      }
    }
  }

  lemma WidthExtends(s: seq<Byte>, rest: seq<Byte>)
    requires CharWidth(s) == |s| > 0
    ensures CharWidth(s + rest) == |s|
  {
    assert forall j :: 0 <= j < |s| ==> (s + rest)[j] == s[j];
  }

  /** The encoding of a scalar value is read as one character, whatever follows. */
  lemma EncodedIsCharacter(cp: nat, rest: seq<Byte>)
    requires Scalar(cp)
    ensures CharWidth(Encode(cp) + rest) == |Encode(cp)|
    ensures Valid(Encode(cp) + rest) <==> Valid(rest)
  {
    EncodedWidth(cp);
    assert Encode(cp) != [];
    hide Encode, CharWidth;
    WidthExtends(Encode(cp), rest);
    assert (Encode(cp) + rest)[|Encode(cp)|..] == rest;
  }

  /** And nothing else is: the character at the front of a text is the encoding of a scalar value. */
  lemma CharacterIsEncoded(s: seq<Byte>) returns (cp: nat)
    requires CharWidth(s) > 0
    ensures Scalar(cp) && Encode(cp) == s[..CharWidth(s)]
  {
    var w := CharWidth(s);
    var b: seq<int> := seq(w, j requires 0 <= j < w => s[j] as int);
    if w == 1 {
      cp := b[0];
    } else if w == 2 {
      cp := SixBits(b[0] - 0xC0, b[1] - 0x80);
    } else if w == 3 {
      var high := SixBits(b[0] - 0xE0, b[1] - 0x80);
      cp := SixBits(high, b[2] - 0x80);
      Digits(cp, high);
    } else {
      var top := SixBits(b[0] - 0xF0, b[1] - 0x80);
      var high := SixBits(top, b[2] - 0x80);
      cp := SixBits(high, b[3] - 0x80);
      Digits(high, top);
      Digits(cp, high);
    }
  }

  lemma SixBits(high: nat, low: nat) returns (n: nat)
    requires low < 64
    ensures n == high * 64 + low && n / 64 == high && n % 64 == low
  {
    n := high * 64 + low;
  }

  lemma Digits(n: nat, high: nat)
    requires n / 64 == high
    ensures n / 4096 == high / 64 && n / 262144 == high / 4096
  {
  }
}
