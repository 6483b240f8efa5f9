/** The client's base-58 encoder: an in-place base conversion with carries, and exactly
    which byte strings it encodes faithfully. */
module Base58 {
  import opened Arith
  import opened State

  // The Bitcoin alphabet, in its unbroken ranges: no 0, I, O or l.
  const NINE := "123456789"
  const A_TO_H := "ABCDEFGH"
  const J_TO_N := "JKLMN"
  const P_TO_Z := "PQRSTUVWXYZ"
  const LOWER_A_TO_K := "abcdefghijk"
  const LOWER_M_TO_Z := "mnopqrstuvwxyz"
  const ALPHABET := NINE + A_TO_H + J_TO_N + P_TO_Z + LOWER_A_TO_K + LOWER_M_TO_Z

  type Digit = d: int | 0 <= d < 58

  function CharOf(d: Digit): char {
    ALPHABET[d]
  }

  /** The digit a character stands for, -1 for a character outside the alphabet. */
  function DigitOf(c: char): int {
    if '1' <= c <= '9' then c as int - '1' as int
    else if 'A' <= c <= 'H' then c as int - 'A' as int + 9
    else if 'J' <= c <= 'N' then c as int - 'J' as int + 17
    else if 'P' <= c <= 'Z' then c as int - 'P' as int + 22
    else if 'a' <= c <= 'k' then c as int - 'a' as int + 33
    else if 'm' <= c <= 'z' then c as int - 'm' as int + 44
    else -1
  }

  lemma RangeAt(range: string, first: char, k: nat)
    requires k < |range|
    requires (range, first) in {(NINE, '1'), (A_TO_H, 'A'), (J_TO_N, 'J'), (P_TO_Z, 'P'), (LOWER_A_TO_K, 'a'),
             (LOWER_M_TO_Z, 'm')}
    ensures range[k] as int == first as int + k
  {
  }

  lemma DigitOfChar(d: Digit)
    ensures DigitOf(CharOf(d)) == d
  {
    if d < 9 {
      RangeAt(NINE, '1', d);
    } else if d < 17 {
      RangeAt(A_TO_H, 'A', d - 9);
    } else if d < 22 {
      RangeAt(J_TO_N, 'J', d - 17);
    } else if d < 33 {
      RangeAt(P_TO_Z, 'P', d - 22);
    } else if d < 44 {
      RangeAt(LOWER_A_TO_K, 'a', d - 33);
    } else {
      RangeAt(LOWER_M_TO_Z, 'm', d - 44);
    }
  }

  // ---------- numbers and their spellings ----------

  /** The number a byte string spells, most significant byte first. */
  function BytesValue(bytes: seq<u8>): nat {
    if bytes == [] then 0 else BytesValue(bytes[..|bytes| - 1]) * 256 + bytes[|bytes| - 1]
  }

  /** The shortest byte string that spells `n`; nothing at all for zero. */
  function MinimalBytes(n: nat): seq<u8> {
    if n == 0 then [] else MinimalBytes(n / 256) + [n % 256]
  }

  /** The number a digit array spells, least significant digit first. */
  function DigitsValue(digits: seq<Digit>): nat {
    if digits == [] then 0 else digits[0] + 58 * DigitsValue(digits[1..])
  }

  /** The base-58 digits of `n`, least significant first; zero has one digit. */
  function DigitsOf(n: nat): (digits: seq<Digit>)
    ensures digits != []
  {
    if n < 58 then [n] else [n % 58] + DigitsOf(n / 58)
  }

  /** No superfluous top digit; zero itself is the single digit zero. */
  predicate Canonical(digits: seq<Digit>) {
    digits != [] && (digits[|digits| - 1] != 0 || digits == [0])
  }

  function Spell(digits: seq<Digit>): (text: string)
    ensures |text| == |digits|
  {
    if digits == [] then "" else Spell(digits[1..]) + [CharOf(digits[0])]
  }

  function TextValue(text: string): int {
    if text == "" then 0 else TextValue(text[..|text| - 1]) * 58 + DigitOf(text[|text| - 1])
  }

  function LeadingZeros(bytes: seq<u8>): (n: nat)
    ensures n <= |bytes|
    ensures forall i :: 0 <= i < n ==> bytes[i] == 0
    ensures n < |bytes| ==> bytes[n] != 0
  {
    if bytes == [] || bytes[0] != 0 then 0 else 1 + LeadingZeros(bytes[1..])
  }

  function LeadingOnes(text: string): (n: nat)
    ensures n <= |text|
  {
    if text == "" || text[0] != '1' then 0 else 1 + LeadingOnes(text[1..])
  }

  function Repeat<T>(x: T, n: nat): (s: seq<T>)
    ensures |s| == n
  {
    seq(n, _ => x)
  }

  /** What the encoder computes: a one per leading zero byte, then the rest in base 58. */
  function Encoded(bytes: seq<u8>): string {
    var zeros := LeadingZeros(bytes);
    Repeat('1', zeros) + Spell(DigitsOf(BytesValue(bytes[zeros..])))
  }

  /** Decoding as the base-58 format defines it: a zero byte per leading one, then the
      shortest byte string of the remaining number. */
  function Decode(text: string): Option<seq<u8>> {
    if exists i :: 0 <= i < |text| && DigitOf(text[i]) < 0 then None
    else
      var ones := LeadingOnes(text);
      var n := TextValue(text[ones..]);
      if n < 0 then None else Some(Repeat(0, ones) + MinimalBytes(n))
  }

  // ---------- digits ----------

  lemma {:induction false} DigitsAreCanonical(n: nat)
    ensures Canonical(DigitsOf(n)) && DigitsValue(DigitsOf(n)) == n
  {
    if 58 <= n {
      DigitsAreCanonical(n / 58);
    }
  }

  /** A canonical digit array is the one `DigitsOf` yields for its value. */
  lemma {:induction false} CanonicalIsUnique(digits: seq<Digit>)
    requires Canonical(digits)
    ensures DigitsOf(DigitsValue(digits)) == digits
    ensures |digits| > 1 ==> 58 <= DigitsValue(digits)
  {
    if |digits| == 1 {
      assert DigitsValue(digits) == digits[0];
    } else {
      var rest := digits[1..];
      if rest == [0] {
        assert false;
      }
      CanonicalIsUnique(rest);
      PositiveTop(rest);
      DivUnique(DigitsValue(digits), 58, DigitsValue(rest));
    }
  }

  lemma {:induction false} PositiveTop(digits: seq<Digit>)
    requires digits != [] && digits[|digits| - 1] != 0
    ensures Pow(58, |digits| - 1) <= DigitsValue(digits)
  {
    if |digits| == 1 {
    } else {
      PositiveTop(digits[1..]);
    }
  }

  lemma {:induction false} ValueBelow(digits: seq<Digit>)
    ensures DigitsValue(digits) < Pow(58, |digits|)
  {
    if digits != [] {
      ValueBelow(digits[1..]);
    }
  }

  lemma {:induction false} ValueAppend(digits: seq<Digit>, d: Digit)
    ensures DigitsValue(digits + [d]) == DigitsValue(digits) + Pow(58, |digits|) * d
  {
    if digits == [] {
      assert DigitsValue([d]) == d;
    } else {
      ValueAppend(digits[1..], d);
      assert (digits + [d])[1..] == digits[1..] + [d];
      assert Pow(58, |digits|) * d == 58 * (Pow(58, |digits| - 1) * d);
    }
  }

  // ---------- the encoder ----------

  /** One pass of the inner loops: multiply the digits by 256 and add a byte, in place. */
  method Absorb(before: seq<Digit>, byte: u8) returns (digits: seq<Digit>)
    requires Canonical(before) && (DigitsValue(before) != 0 || byte != 0)
    ensures DigitsValue(digits) == 256 * DigitsValue(before) + byte
    ensures Canonical(digits)
  {
    hide Midway, Pushed, Canonical, DigitsValue, Pow;
    digits := before;
    var carry: nat := byte;
    var j := 0;
    AbsorbStart(before, byte);
    while j < |digits|
      invariant 0 <= j <= |digits| && carry < 256
      invariant Midway(before, byte, digits, j, carry)
    {
      AbsorbDigit(before, byte, digits, j, carry);
      var digit: nat := digits[j];
      carry := carry + digit * 256;
      assert carry < 0x8000_0000;
      digits := digits[j := carry % 58];
      carry := carry / 58;
      j := j + 1;
    }
    AbsorbEnd(before, byte, digits, carry);
    while carry > 0
      invariant Pushed(before, byte, digits, carry)
    {
      PushDigit(before, byte, digits, carry);
      digits := digits + [carry % 58];
      carry := carry / 58;
    }
    PushedOut(before, byte, digits);
  }

  /** Digits below `j` and the carry hold what is done, digits from `j` on are still the old ones. */
  ghost predicate Midway(before: seq<Digit>, byte: u8, digits: seq<Digit>, j: nat, carry: nat) {
    && j <= |digits| == |before| && digits[j..] == before[j..]
    && DigitsValue(digits[..j]) + Pow(58, j) * (carry + 256 * DigitsValue(before[j..]))
       == 256 * DigitsValue(before) + byte
  }

  lemma AbsorbStart(before: seq<Digit>, byte: u8)
    ensures Midway(before, byte, before, 0, byte)
  {
    assert before[0..] == before && before[..0] == [];
  }

  lemma AbsorbDigit(before: seq<Digit>, byte: u8, digits: seq<Digit>, j: nat, carry: nat)
    requires Midway(before, byte, digits, j, carry) && j < |digits|
    ensures var digit: nat := digits[j];
            var total := carry + digit * 256;
            Midway(before, byte, digits[j := total % 58], j + 1, total / 58)
  {
    var digit: nat, rest := before[j], DigitsValue(before[j + 1..]);
    assert digits[j] == digits[j..][0] == before[j..][0] == before[j];
    var total := carry + digit * 256;
    var after := digits[j := total % 58];
    assert before[j..][1..] == before[j + 1..];
    CarryStep(Pow(58, j), carry, digit, total, rest);
    ValueAppend(digits[..j], total % 58);
    assert after[..j + 1] == digits[..j] + [total % 58];
    assert after[j + 1..] == digits[j..][1..];
  }

  /** What the digits lack is the carry times the next place; once it is gone they are canonical. */
  ghost predicate Pushed(before: seq<Digit>, byte: u8, digits: seq<Digit>, carry: nat) {
    && DigitsValue(digits) + Pow(58, |digits|) * carry == 256 * DigitsValue(before) + byte
    && (carry == 0 ==> Canonical(digits))
  }

  lemma AbsorbEnd(before: seq<Digit>, byte: u8, digits: seq<Digit>, carry: nat)
    requires Canonical(before) && (DigitsValue(before) != 0 || byte != 0)
    requires Midway(before, byte, digits, |digits|, carry)
    ensures Pushed(before, byte, digits, carry)
  {
    assert digits[..|digits|] == digits && before[|digits|..] == [];
    if carry == 0 {
      NoCarryOnlyFromZero(before, digits, byte);
    }
  }

  lemma PushedOut(before: seq<Digit>, byte: u8, digits: seq<Digit>)
    requires Pushed(before, byte, digits, 0)
    ensures DigitsValue(digits) == 256 * DigitsValue(before) + byte && Canonical(digits)
  {
    assert Pow(58, |digits|) * 0 == 0;
  }

  lemma PushDigit(before: seq<Digit>, byte: u8, digits: seq<Digit>, carry: nat)
    requires Pushed(before, byte, digits, carry) && 0 < carry
    ensures Pushed(before, byte, digits + [carry % 58], carry / 58)
  {
    ValueAppend(digits, carry % 58);
    PushStep(Pow(58, |digits|), carry);
  }

  lemma CarryStep(place: nat, carried: nat, digit: nat, carry: nat, rest: nat)
    requires carry == carried + digit * 256
    ensures place * (carried + 256 * (digit + 58 * rest))
            == place * (carry % 58) + (58 * place) * (carry / 58 + 256 * rest)
  {
    assert carried + 256 * (digit + 58 * rest) == carry % 58 + 58 * (carry / 58 + 256 * rest);
    Distribute(place, carry % 58, carry / 58 + 256 * rest);
  }

  lemma PushStep(place: nat, carry: nat)
    ensures place * carry == place * (carry % 58) + (58 * place) * (carry / 58)
  {
    Distribute(place, carry % 58, carry / 58);
  }

  lemma Distribute(place: nat, x: nat, y: nat)
    ensures place * (x + 58 * y) == place * x + (58 * place) * y
  {
  }

  /** Times 256 always carries out of the top, unless there was nothing to multiply. */
  lemma NoCarryOnlyFromZero(before: seq<Digit>, digits: seq<Digit>, byte: u8)
    requires Canonical(before) && |digits| == |before| && (DigitsValue(before) != 0 || byte != 0)
    requires DigitsValue(digits) == 256 * DigitsValue(before) + byte
    ensures Canonical(digits)
  {
    assert Pow(58, |before|) == 58 * Pow(58, |before| - 1);
    ValueBelow(digits);
    if before == [0] {
      assert DigitsValue(before) == 0 && DigitsValue(digits) == digits[0];
    } else {
      PositiveTop(before);
      assert false;
    }
  }

  method Base58Encode(bytes: seq<u8>) returns (out: string)
    ensures out == Encoded(bytes)
  {
    hide DigitsValue, BytesValue, Canonical, Spell;
    var zeros := 0;
    while zeros < |bytes| && bytes[zeros] == 0
      invariant 0 <= zeros <= |bytes|
      invariant LeadingZeros(bytes) == zeros + LeadingZeros(bytes[zeros..])
    {
      assert bytes[zeros..][1..] == bytes[zeros + 1..];
      zeros := zeros + 1;
    }
    assert LeadingZeros(bytes[zeros..]) == 0;
    var digits: seq<Digit> := [0];
    ZeroIsCanonical(bytes, zeros);
    for i := zeros to |bytes|
      invariant Canonical(digits) && DigitsValue(digits) == BytesValue(bytes[zeros..i])
      invariant i == zeros || DigitsValue(digits) != 0
    {
      NextByte(bytes, zeros, i);
      digits := Absorb(digits, bytes[i]);
    }
    CanonicalIsUnique(digits);
    assert bytes[zeros..|bytes|] == bytes[zeros..];
    out := WriteOut(zeros, digits);
  }

  lemma ZeroIsCanonical(bytes: seq<u8>, zeros: nat)
    requires zeros <= |bytes|
    ensures Canonical([0]) && DigitsValue([0]) == 0 && BytesValue(bytes[zeros..zeros]) == 0
  {
  }

  lemma NextByte(bytes: seq<u8>, zeros: nat, i: nat)
    requires zeros <= i < |bytes|
    ensures BytesValue(bytes[zeros..i + 1]) == BytesValue(bytes[zeros..i]) * 256 + bytes[i]
  {
    assert bytes[zeros..i + 1][..i - zeros] == bytes[zeros..i];
  }

  /** The text of the encoder: ones for the zero bytes, then the digits from the top down. */
  method WriteOut(zeros: nat, digits: seq<Digit>) returns (out: string)
    ensures out == Repeat('1', zeros) + Spell(digits)
  {
    out := "";
    for i := 0 to zeros
      invariant out == Repeat('1', i)
    {
      out := out + [ALPHABET[0]];
    }
    var i := |digits|;
    while i > 0
      invariant 0 <= i <= |digits|
      invariant out == Repeat('1', zeros) + Spell(digits[i..])
    {
      i := i - 1;
      assert digits[i..][1..] == digits[i + 1..];
      out := out + [ALPHABET[digits[i]]];
    }
    assert digits[0..] == digits;
  }

  // ---------- decoding what was encoded ----------

  lemma {:induction false} SpellValue(digits: seq<Digit>)
    ensures TextValue(Spell(digits)) == DigitsValue(digits)
    ensures forall i :: 0 <= i < |digits| ==> Spell(digits)[i] == CharOf(digits[|digits| - 1 - i])
    ensures forall i :: 0 <= i < |digits| ==> 0 <= DigitOf(Spell(digits)[i])
  {
    if digits != [] {
      SpellValue(digits[1..]);
      DigitOfChar(digits[0]);
      var text := Spell(digits);
      assert text[..|text| - 1] == Spell(digits[1..]);
    }
  }

  lemma {:induction false} BytesValuePositive(bytes: seq<u8>)
    requires bytes != [] && bytes[0] != 0
    ensures 0 < BytesValue(bytes)
  {
    if |bytes| > 1 {
      BytesValuePositive(bytes[..|bytes| - 1]);
    }
  }

  lemma {:induction false} BytesRoundTrip(bytes: seq<u8>)
    requires bytes == [] || bytes[0] != 0
    ensures MinimalBytes(BytesValue(bytes)) == bytes
  {
    if bytes != [] {
      var front, last := bytes[..|bytes| - 1], bytes[|bytes| - 1];
      BytesRoundTrip(front);
      BytesValuePositive(bytes);
      DivUnique(BytesValue(bytes), 256, BytesValue(front));
      assert bytes == front + [last];
    }
  }

  lemma {:induction false} OnesThen(n: nat, text: string)
    ensures LeadingOnes(Repeat('1', n) + text) == n + LeadingOnes(text)
  {
    if n == 0 {
      assert Repeat('1', 0) + text == text;
    } else {
      assert (Repeat('1', n) + text)[1..] == Repeat('1', n - 1) + text;
      OnesThen(n - 1, text);
    }
  }

  /** Everything the encoder writes is in the alphabet, so decoding only needs the count of
      leading ones and the value of what follows them. */
  lemma DecodeSpelling(zeros: nat, digits: seq<Digit>)
    ensures var out := Repeat('1', zeros) + Spell(digits);
            var ones := LeadingOnes(out);
            Decode(out) ==
            var n := TextValue(out[ones..]);
            if n < 0 then None else Some(Repeat(0, ones) + MinimalBytes(n))
  {
    SpellValue(digits);
    DigitOfChar(0);
    var out := Repeat('1', zeros) + Spell(digits);
    forall i | 0 <= i < |out|
      ensures 0 <= DigitOf(out[i])
    {
      if zeros <= i {
        assert out[i] == Spell(digits)[i - zeros];
      } else {
        assert out[i] == '1' == CharOf(0);
      }
    }
  }

  lemma DecodeWithTop(zeros: nat, digits: seq<Digit>)
    requires digits != [] && digits[|digits| - 1] != 0
    ensures Decode(Repeat('1', zeros) + Spell(digits)) == Some(Repeat(0, zeros) + MinimalBytes(DigitsValue(digits)))
  {
    hide Decode, MinimalBytes, DigitsValue, TextValue, Spell, Repeat;
    var text := Spell(digits);
    var out := Repeat('1', zeros) + text;
    DecodeSpelling(zeros, digits);
    SpellValue(digits);
    DigitOfChar(digits[|digits| - 1]);
    assert text[0] == CharOf(digits[|digits| - 1]);
    assert LeadingOnes(text) == 0;
    OnesThen(zeros, text);
    assert out[zeros..] == text;
  }

  lemma DecodeOnes(n: nat)
    ensures Decode(Repeat('1', n) + Spell([0])) == Some(Repeat(0, n + 1))
  {
    hide Decode;
    var out := Repeat('1', n) + Spell([0]);
    DecodeSpelling(n, [0]);
    assert Spell([0]) == [CharOf(0)] == Repeat('1', 1);
    OnesThen(1, "");
    assert Repeat('1', 1) + "" == Repeat('1', 1);
    OnesThen(n, Spell([0]));
    assert out[n + 1..] == "";
    assert Repeat(0, n + 1) + MinimalBytes(0) == Repeat(0, n + 1);
  }

  /** Decoding the encoding returns the same bytes, except that a string of nothing but zero
      bytes, the empty one included, comes back one zero byte longer. */
  lemma DecodeEncoded(bytes: seq<u8>)
    ensures Decode(Encoded(bytes)) == Some(if LeadingZeros(bytes) == |bytes| then bytes + [0] else bytes)
  {
    hide Decode, Encoded, LeadingZeros;
    if LeadingZeros(bytes) == |bytes| {
      DecodeZeros(bytes);
    } else {
      DecodeNonzero(bytes);
    }
  }

  lemma DecodeZeros(bytes: seq<u8>)
    requires LeadingZeros(bytes) == |bytes|
    ensures Decode(Encoded(bytes)) == Some(bytes + [0])
  {
    hide Decode, Spell, LeadingZeros;
    assert bytes[|bytes|..] == [];
    assert DigitsOf(0) == [0];
    DecodeOnes(|bytes|);
    assert Repeat(0, |bytes| + 1) == bytes + [0];
  }

  lemma DecodeNonzero(bytes: seq<u8>)
    requires LeadingZeros(bytes) < |bytes|
    ensures Decode(Encoded(bytes)) == Some(bytes)
  {
    hide Decode, Spell, LeadingZeros, DigitsOf, DigitsValue, BytesValue, MinimalBytes, Repeat;
    var zeros := LeadingZeros(bytes);
    ZerosThenRest(bytes, zeros);
    DecodeTail(zeros, bytes[zeros..]);
  }

  lemma ZerosThenRest(bytes: seq<u8>, zeros: nat)
    requires zeros <= |bytes| && forall i :: 0 <= i < zeros ==> bytes[i] == 0
    ensures Repeat(0, zeros) + bytes[zeros..] == bytes
  {
  }

  lemma DecodeTail(zeros: nat, tail: seq<u8>)
    requires tail != [] && tail[0] != 0
    ensures Decode(Repeat('1', zeros) + Spell(DigitsOf(BytesValue(tail)))) == Some(Repeat(0, zeros) + tail)
  {
    hide Decode, Spell, DigitsOf, DigitsValue, BytesValue, MinimalBytes;
    DigitsAreCanonical(BytesValue(tail));
    BytesRoundTrip(tail);
    BytesValuePositive(tail);
    ZeroDigitIsZero();
    DecodeWithTop(zeros, DigitsOf(BytesValue(tail)));
  }

  lemma ZeroDigitIsZero()
    ensures DigitsValue([0]) == 0
  {
  }

  /** The encoder is faithful exactly on the byte strings with a nonzero byte. */
  lemma FaithfulIff(bytes: seq<u8>)
    ensures Decode(Encoded(bytes)) == Some(bytes) <==> exists i :: 0 <= i < |bytes| && bytes[i] != 0
  {
    DecodeEncoded(bytes);
    if LeadingZeros(bytes) < |bytes| {
      assert bytes[LeadingZeros(bytes)] != 0;
    }
  }

  /** Two different byte strings never encode alike, all-zero ones included. */
  lemma Injective(a: seq<u8>, b: seq<u8>)
    requires Encoded(a) == Encoded(b)
    ensures a == b
  {
    DecodeEncoded(a);
    DecodeEncoded(b);
    if LeadingZeros(a) == |a| && LeadingZeros(b) == |b| {
      assert (a + [0])[..|a|] == (b + [0])[..|b|];
    } else if LeadingZeros(a) == |a| {
      assert false;
    } else if LeadingZeros(b) == |b| {
      assert false;
    }
  }
}
