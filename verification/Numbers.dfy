/** Decimal and dotted-quad notation, and the netmask conversions. */
module Numbers {
  import opened Nets
  import opened Text

  predicate IsDigit(c: char) {
    '0' <= c <= '9'
  }

  function DigitValue(c: char): nat
    requires IsDigit(c)
  {
    c as nat - '0' as nat
  }

  function Digit(d: nat): (c: char)
    requires d < 10
    ensures IsDigit(c) && DigitValue(c) == d
  {
    '0' + d as char
  }

  predicate AllDigits(s: string) {
    forall i :: 0 <= i < |s| ==> IsDigit(s[i])
  }

  function DecimalValue(s: string): nat
    requires AllDigits(s)
  {
    if s == [] then 0 else 10 * DecimalValue(s[..|s| - 1]) + DigitValue(s[|s| - 1])
  }

  /** `str::parse` for an unsigned integer of at most `max`: an optional plus
      sign, then at least one digit. */
  function ParseUnsigned(s: string, max: nat): Option<nat> {
    var digits := if "+" <= s then s[1..] else s;
    if digits != [] && AllDigits(digits) && DecimalValue(digits) <= max then Some(DecimalValue(digits)) else None
  }

  /** A number is read exactly from digits, at least one, with or without a plus sign, that
      do not exceed the limit. */
  lemma UnsignedExactly(s: string, max: nat, v: nat)
    ensures ParseUnsigned(s, max) == Some(v)
       <==> v <= max && exists digits: string ::
                          && digits != "" && AllDigits(digits) && DecimalValue(digits) == v
                          && (s == digits || s == "+" + digits)
  {
    if "+" <= s {
      assert s == "+" + s[1..] && !IsDigit(s[0]);
    }
    if digits: string :| digits != "" && AllDigits(digits) && (s == digits || s == "+" + digits) {
      assert s == digits ==> IsDigit(s[0]) && !("+" <= s);
      assert s == "+" + digits ==> "+" <= s && s[1..] == digits;
    }
  }

  /** `Display` for a byte. */
  function ShowByte(b: nat): (s: string)
    requires b < 256
  {
    if b < 10 then [Digit(b)]
    else if b < 100 then [Digit(b / 10), Digit(b % 10)]
    else [Digit(b / 100), Digit(b / 10 % 10), Digit(b % 10)]
  }

  lemma ShowByteReads(b: nat)
    requires b < 256
    ensures AllDigits(ShowByte(b)) && DecimalValue(ShowByte(b)) == b
    ensures ParseUnsigned(ShowByte(b), 255) == Some(b)
    ensures ParseOctet(ShowByte(b)) == Some(b)
    ensures '.' !in ShowByte(b)
    ensures Solid(ShowByte(b))
  {
    if b < 10 {
      DecimalDigits(0, 0, b);
    } else if b < 100 {
      DecimalDigits(0, b / 10, b % 10);
    } else {
      DecimalDigits(b / 100, b / 10 % 10, b % 10);
      assert 100 * (b / 100) + 10 * (b / 10 % 10) + b % 10 == b;
    }
    var s := ShowByte(b);
    assert DecimalValue(s) == b;
    assert IsDigit(s[0]) && (s[0] == '0' ==> |s| == 1);
    assert !("+" <= s);
  }

  lemma DecimalDigits(i: nat, j: nat, k: nat)
    requires i < 10 && j < 10 && k < 10
    ensures DecimalValue([Digit(k)]) == k
    ensures DecimalValue([Digit(j), Digit(k)]) == 10 * j + k
    ensures DecimalValue([Digit(i), Digit(j), Digit(k)]) == 100 * i + 10 * j + k
  {
    DecimalAppend("", Digit(i));
    DecimalAppend("", Digit(j));
    DecimalAppend("", Digit(k));
    assert [Digit(i), Digit(j)] == [Digit(i)] + [Digit(j)] && [Digit(j), Digit(k)] == [Digit(j)] + [Digit(k)];
    assert [Digit(i), Digit(j), Digit(k)] == [Digit(i), Digit(j)] + [Digit(k)];
    DecimalAppend([Digit(j)], Digit(k));
    DecimalAppend([Digit(i)], Digit(j));
    DecimalAppend([Digit(i), Digit(j)], Digit(k));
  }

  lemma DecimalAppend(s: string, c: char)
    requires AllDigits(s) && IsDigit(c)
    ensures AllDigits(s + [c]) && DecimalValue(s + [c]) == 10 * DecimalValue(s) + DigitValue(c)
  {
    assert (s + [c])[..|s|] == s;
  }

  // ------------------------------------------------------------- dotted quads

  /** One octet of an `Ipv4Addr`: up to three digits, no leading zero, below 256. */
  function ParseOctet(s: string): Option<nat> {
    if 1 <= |s| <= 3 && AllDigits(s) && (s[0] == '0' ==> |s| == 1) && DecimalValue(s) < 256
    then Some(DecimalValue(s)) else None
  }

  function ParseIpv4(s: string): Option<nat> {
    ParseQuad(Split(s, '.'))
  }

  function ParseQuad(parts: seq<string>): Option<nat> {
    if |parts| != 4 then None else
    match (ParseOctet(parts[0]), ParseOctet(parts[1]), ParseOctet(parts[2]), ParseOctet(parts[3]))
    case (Some(a), Some(b), Some(c), Some(d)) => Some(((a * 256 + b) * 256 + c) * 256 + d)
    case _ => None
  }

  function Dotted(a: string, b: string, c: string, d: string): string {
    a + ['.'] + (b + ['.'] + (c + ['.'] + d))
  }

  function ShowIpv4(bits: nat): string
    requires bits < 0x1_0000_0000
  {
    Dotted(ShowByte(bits / 0x100_0000), ShowByte(bits / 0x1_0000 % 256), ShowByte(bits / 0x100 % 256),
           ShowByte(bits % 256))
  }

  lemma ShowIpv4Reads(bits: nat)
    requires bits < 0x1_0000_0000
    ensures ParseIpv4(ShowIpv4(bits)) == Some(bits)
    ensures Solid(ShowIpv4(bits))
  {
    var a, b, c, d := bits / 0x100_0000, bits / 0x1_0000 % 256, bits / 0x100 % 256, bits % 256;
    Octets(bits);
    QuadReads(a, b, c, d);
  }

  lemma QuadReads(a: nat, b: nat, c: nat, d: nat)
    requires a < 256 && b < 256 && c < 256 && d < 256
    ensures var s := Dotted(ShowByte(a), ShowByte(b), ShowByte(c), ShowByte(d));
            ParseIpv4(s) == Some(((a * 256 + b) * 256 + c) * 256 + d) && Solid(s)
  {
    ShowByteReads(a);
    ShowByteReads(b);
    ShowByteReads(c);
    ShowByteReads(d);
    FourParts(ShowByte(a), ShowByte(b), ShowByte(c), ShowByte(d));
    DottedSolid(ShowByte(a), ShowByte(b), ShowByte(c), ShowByte(d));
  }

  lemma Octets(bits: nat)
    requires bits < 0x1_0000_0000
    ensures bits / 0x100_0000 < 256
    ensures ((bits / 0x100_0000 * 256 + bits / 0x1_0000 % 256) * 256 + bits / 0x100 % 256) * 256 + bits % 256 == bits
  {
  }

  lemma FourParts(a: string, b: string, c: string, d: string)
    requires '.' !in a && '.' !in b && '.' !in c && '.' !in d
    ensures Split(Dotted(a, b, c, d), '.') == [a, b, c, d]
  {
    var two := c + ['.'] + d;
    var three := b + ['.'] + two;
    SplitWhole(d, '.');
    SplitSeparator(c, '.', d, [d]);
    SplitSeparator(b, '.', two, [c] + [d]);
    SplitSeparator(a, '.', three, [b] + ([c] + [d]));
  }

  lemma DottedSolid(a: string, b: string, c: string, d: string)
    requires AllDigits(a) && AllDigits(b) && AllDigits(c) && AllDigits(d)
    ensures Solid(Dotted(a, b, c, d))
  {
    var s := Dotted(a, b, c, d);
    forall i | 0 <= i < |s| ensures !IsSpace(s[i]) {
      assert IsDigit(s[i]) || s[i] == '.';
    }
  }

  // --------------------------------------------- nothing else is read

  /** An octet is read from the text that is printed for it, and from no other. */
  lemma OctetOnlyShown(s: string, b: nat)
    requires b < 256
    ensures ParseOctet(s) == Some(b) <==> s == ShowByte(b)
  {
    ShowByteReads(b);
    if ParseOctet(s) == Some(b) {
      OctetDigits(s, b);
    }
  }

  lemma OctetDigits(s: string, b: nat)
    requires ParseOctet(s) == Some(b)
    ensures b < 256 && s == ShowByte(b)
  {
    if |s| == 1 {
      DigitsOf(s[0]);
      DecimalDigits(0, 0, DigitValue(s[0]));
      assert s == [s[0]];
    } else if |s| == 2 {
      DigitsOf(s[0]);
      DigitsOf(s[1]);
      DecimalDigits(0, DigitValue(s[0]), DigitValue(s[1]));
      assert s == [s[0], s[1]];
    } else {
      OctetOfThree(s, b);
    }
  }

  lemma DigitsOf(c: char)
    requires IsDigit(c)
    ensures DigitValue(c) < 10 && Digit(DigitValue(c)) == c && (DigitValue(c) == 0 ==> c == '0')
  {
  }

  lemma OctetOfThree(s: string, b: nat)
    requires |s| == 3 && ParseOctet(s) == Some(b)
    ensures b < 256 && s == ShowByte(b)
  {
    DigitsOf(s[0]);
    DigitsOf(s[1]);
    DigitsOf(s[2]);
    var i, j, k := DigitValue(s[0]), DigitValue(s[1]), DigitValue(s[2]);
    DecimalDigits(i, j, k);
    assert s == [s[0], s[1], s[2]];
    assert b == 100 * i + 10 * j + k && i > 0;
    assert b / 100 == i && b / 10 == 10 * i + j && b / 10 % 10 == j && b % 10 == k;
  }

  /** So an IPv4 address is read from its own notation and from no other text. */
  lemma Ipv4OnlyShown(s: string, bits: nat)
    requires bits < 0x1_0000_0000
    ensures ParseIpv4(s) == Some(bits) <==> s == ShowIpv4(bits)
  {
    ShowIpv4Reads(bits);
    if ParseIpv4(s) == Some(bits) {
      var parts := Split(s, '.');
      var a, b, c, d := ParseOctet(parts[0]).value, ParseOctet(parts[1]).value, ParseOctet(parts[2]).value,
                        ParseOctet(parts[3]).value;
      OctetDigits(parts[0], a);
      OctetDigits(parts[1], b);
      OctetDigits(parts[2], c);
      OctetDigits(parts[3], d);
      QuadDigits(a, b, c, d);
      Rejoined(s);
    }
  }

  lemma QuadDigits(a: nat, b: nat, c: nat, d: nat)
    requires a < 256 && b < 256 && c < 256 && d < 256
    ensures var bits := ((a * 256 + b) * 256 + c) * 256 + d;
            && bits / 0x100_0000 == a && bits / 0x1_0000 % 256 == b && bits / 0x100 % 256 == c && bits % 256 == d
  {
  }

  lemma Rejoined(s: string)
    requires |Split(s, '.')| == 4
    ensures var p := Split(s, '.'); s == Dotted(p[0], p[1], p[2], p[3])
  {
    var s1 := Peel(s, '.');
    var s2 := Peel(s1, '.');
    var s3 := Peel(s2, '.');
    LastPiece(s3, '.');
  }

  /** The first piece, the separator, and what is split further. */
  lemma Peel(s: string, c: char) returns (rest: string)
    requires |Split(s, c)| > 1
    ensures Split(s, c) == [Split(s, c)[0]] + Split(rest, c) && s == Split(s, c)[0] + [c] + rest
  {
    var i := Find(s, c);
    rest := s[i + 1..];
    assert s == s[..i] + [c] + rest;
  }

  lemma LastPiece(s: string, c: char)
    requires |Split(s, c)| == 1
    ensures Split(s, c) == [s]
  {
  }

  // ------------------------------------------------------------------ netmasks

  /** `leading_ones` of a `width`-bit word. */
  function LeadingOnes(word: nat, width: nat): nat {
    if width > 0 && word >= Pow2(width - 1) then 1 + LeadingOnes(word - Pow2(width - 1), width - 1) else 0
  }

  /** `count_ones` of a `width`-bit word. */
  function CountOnes(word: nat, width: nat): nat {
    if width == 0 then 0
    else if word >= Pow2(width - 1) then 1 + CountOnes(word - Pow2(width - 1), width - 1)
    else CountOnes(word, width - 1)
  }

  function MaskToPrefix(mask: nat): Option<nat> {
    if CountOnes(mask, 32) != LeadingOnes(mask, 32) then None else Some(LeadingOnes(mask, 32))
  }

  /** An all-ones word shifted left by the host bits, cut to 32 bits. */
  function PrefixToMask(prefix: nat): nat {
    if prefix == 0 then 0 else
    var kept := if prefix < 32 then prefix else 32;
    0xFFFF_FFFF * Pow2(32 - kept) % 0x1_0000_0000
  }

  lemma {:induction false} OnesPacked(word: nat, width: nat)
    requires word < Pow2(width)
    ensures LeadingOnes(word, width) <= CountOnes(word, width) <= width
    ensures CountOnes(word, width) == 0 <==> word == 0
    ensures CountOnes(word, width) == LeadingOnes(word, width)
            ==> word == Pow2(width) - Pow2(width - LeadingOnes(word, width))
  {
    if width > 0 {
      if word >= Pow2(width - 1) {
        OnesPacked(word - Pow2(width - 1), width - 1);
      } else {
        OnesPacked(word, width - 1);
      }
    }
  }

  lemma {:induction false} PackedOnes(width: nat, ones: nat)
    requires ones <= width
    ensures var word := Pow2(width) - Pow2(width - ones);
            0 <= word < Pow2(width) && CountOnes(word, width) == ones && LeadingOnes(word, width) == ones
  {
    if ones > 0 {
      PackedOnes(width - 1, ones - 1);
      assert Pow2(width) - Pow2(width - ones) == Pow2(width - 1) + (Pow2(width - 1) - Pow2(width - ones));
    } else {
      NoOnes(width);
    }
  }

  lemma {:induction false} NoOnes(width: nat)
    ensures CountOnes(0, width) == 0
  {
    if width > 0 {
      NoOnes(width - 1);
    }
  }

  lemma {:induction false} Pow2Monotone(a: nat, b: nat)
    requires a <= b
    ensures Pow2(a) <= Pow2(b)
  {
    if a < b {
      Pow2Monotone(a, b - 1);
    }
  }

  lemma Pow2Word()
    ensures Pow2(32) == 0x1_0000_0000
  {
    assert Pow2(4) == 16 && Pow2(8) == 16 * Pow2(4);
    assert Pow2(12) == 16 * Pow2(8) && Pow2(16) == 16 * Pow2(12);
    assert Pow2(20) == 16 * Pow2(16) && Pow2(24) == 16 * Pow2(20);
    assert Pow2(28) == 16 * Pow2(24) && Pow2(32) == 16 * Pow2(28);
  }

  lemma MaskValue(prefix: nat)
    requires prefix <= 32
    ensures Pow2(32) == 0x1_0000_0000
    ensures PrefixToMask(prefix) == Pow2(32) - Pow2(32 - prefix) < 0x1_0000_0000
  {
    Pow2Word();
    Pow2Monotone(32 - prefix, 32);
    if prefix > 0 {
      ShiftedOnes(Pow2(32 - prefix));
    }
  }

  lemma ShiftedOnes(p: nat)
    requires 0 < p <= 0x1_0000_0000
    ensures 0xFFFF_FFFF * p % 0x1_0000_0000 == 0x1_0000_0000 - p
  {
    assert 0xFFFF_FFFF * p == 0x1_0000_0000 * (p - 1) + (0x1_0000_0000 - p);
  }

  /** The two conversions are inverse: a mask has a prefix length exactly when it
      is the mask of that length. */
  lemma MaskPrefixInverse(mask: nat, prefix: nat)
    requires mask < 0x1_0000_0000
    ensures MaskToPrefix(mask) == Some(prefix) <==> prefix <= 32 && mask == PrefixToMask(prefix)
  {
    MaskValue(0);
    OnesPacked(mask, 32);
    if prefix <= 32 {
      MaskValue(prefix);
      PackedOnes(32, prefix);
    }
  }

  /** Longer prefixes are clamped, so they print as a host mask. */
  lemma LongPrefixClamps(prefix: nat)
    requires prefix >= 32
    ensures PrefixToMask(prefix) == 0xFFFF_FFFF && MaskToPrefix(PrefixToMask(prefix)) == Some(32)
  {
    MaskValue(32);
    MaskPrefixInverse(0xFFFF_FFFF, 32);
  }
}
