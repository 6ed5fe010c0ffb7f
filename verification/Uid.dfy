/** Tag UIDs: the hex the NFC reader prints and the canonical form both processes agree on. */
module Uid {
  import opened Basics

  type Byte = b: int | 0 <= b < 256

  function HexChar(d: int): (c: char)
    requires 0 <= d < 16
    ensures IsHexDigit(c)
  {
    if d < 10 then '0' + d as char else 'A' + (d - 10) as char
  }

  /** The reader's printer: two upper-case hex digits a byte, no separators. */
  function Hex(bytes: seq<Byte>): string {
    if bytes == [] then "" else [HexChar(bytes[0] / 16), HexChar(bytes[0] % 16)] + Hex(bytes[1..])
  }

  predicate IsColon(c: char) {
    c == ':'
  }

  predicate IsDash(c: char) {
    c == '-'
  }

  predicate IsSeparator(c: char) {
    IsSpace(c) || IsColon(c) || IsDash(c)
  }

  /** Python's upper-casing as far as hex can tell: apart from ASCII letters, the ligature `ff` is the only
      character whose upper case is made of hex digits. The others are kept, and are no more hex digits
      than their upper case is. */
  function ToUpper(c: char): string {
    if 'a' <= c <= 'z' then [c - 'a' + 'A'] else if c == LIGATURE_FF then "FF" else [c]
  }

  const LIGATURE_FF := '\U{FB00}'

  function ToLower(c: char): char {
    if 'A' <= c <= 'Z' then c - 'A' + 'a' else c
  }

  predicate IsHexDigit(c: char) {
    '0' <= c <= '9' || 'A' <= c <= 'F'
  }

  function Without(s: string, dropped: char -> bool): string {
    if s == "" then "" else (if dropped(s[0]) then "" else [s[0]]) + Without(s[1..], dropped)
  }

  function Upper(s: string): string {
    if s == "" then "" else ToUpper(s[0]) + Upper(s[1..])
  }

  function Clean(raw: string): string {
    Upper(Without(Without(Without(raw, IsSpace), IsColon), IsDash))
  }

  predicate AllHex(s: string) {
    forall i :: 0 <= i < |s| ==> IsHexDigit(s[i])
  }

  /** The canonical form of `raw`, or "" when it is not a UID. */
  function Normalize(raw: string): string {
    var cleaned := Clean(raw);
    if cleaned == "" || |cleaned| % 2 != 0 || !AllHex(cleaned) then "" else cleaned
  }

  predicate Canonical(s: string) {
    s != "" && |s| % 2 == 0 && AllHex(s)
  }

  /** `s` spells `h`, possibly in lower case, with the ligature for `ff`, and with colons, dashes or
      whitespace anywhere. */
  predicate IsVariant(s: string, h: string) {
    if s == "" then h == ""
    else
      || (IsSeparator(s[0]) && IsVariant(s[1..], h))
      || (h != "" && (s[0] == h[0] || s[0] == ToLower(h[0])) && IsVariant(s[1..], h[1..]))
      || (s[0] == LIGATURE_FF && "FF" <= h && IsVariant(s[1..], h[2..]))
  }

  lemma WithoutStep(c: char, s: string, dropped: char -> bool)
    ensures Without([c] + s, dropped) == if dropped(c) then Without(s, dropped) else [c] + Without(s, dropped)
  {
    assert ([c] + s)[1..] == s;
  }

  lemma CleanStep(c: char, s: string)
    ensures Clean([c] + s) == if IsSeparator(c) then Clean(s) else ToUpper(c) + Clean(s)
  {
    var squeezed := Without(s, IsSpace);
    var uncoloned := Without(squeezed, IsColon);
    WithoutStep(c, s, IsSpace);
    WithoutStep(c, squeezed, IsColon);
    WithoutStep(c, uncoloned, IsDash);
    assert !IsSeparator(c) ==> ([c] + Without(uncoloned, IsDash))[1..] == Without(uncoloned, IsDash);
  }

  lemma Prefixed(a: string, rest: string, h: string)
    ensures a + rest == h <==> a <= h && rest == h[|a|..]
  {
    assert a <= h ==> h == a + h[|a|..];
  }

  lemma {:induction false} CleanIffVariant(s: string, h: string)
    requires AllHex(h)
    ensures Clean(s) == h <==> IsVariant(s, h)
    decreases |s|
  {
    if s != "" {
      var c, rest := s[0], s[1..];
      CleanStep(c, rest);
      assert s == [c] + rest;
      if IsSeparator(c) {
        CleanIffVariant(rest, h);
      } else {
        Prefixed(ToUpper(c), Clean(rest), h);
        if ToUpper(c) <= h {
          CleanIffVariant(rest, h[|ToUpper(c)|..]);
        }
      }
    }
  }

  /** Normalizing gives back exactly the canonical UID that the input spells, and nothing else. */
  lemma NormalizeIffVariant(s: string, h: string)
    requires Canonical(h)
    ensures Normalize(s) == h <==> IsVariant(s, h)
  {
    CleanIffVariant(s, h);
  }

  lemma {:induction false} HexIsVariantOfItself(h: string)
    ensures IsVariant(h, h)
  {
    if h != "" {
      HexIsVariantOfItself(h[1..]);
    }
  }

  function Digit(c: char): (d: int)
    ensures IsHexDigit(c) ==> 0 <= d < 16 && HexChar(d) == c
  {
    if '0' <= c <= '9' then c as int - '0' as int
    else if 'A' <= c <= 'F' then c as int - 'A' as int + 10
    else 0
  }

  function Decode(h: string): seq<Byte>
    requires |h| % 2 == 0 && AllHex(h)
  {
    if h == "" then [] else [16 * Digit(h[0]) + Digit(h[1])] + Decode(h[2..])
  }

  lemma DigitOfHexChar(d: int)
    requires 0 <= d < 16
    ensures Digit(HexChar(d)) == d
  {
  }

  lemma {:induction false} DecodeHex(bytes: seq<Byte>)
    ensures |Hex(bytes)| == 2 * |bytes| && AllHex(Hex(bytes))
    ensures Decode(Hex(bytes)) == bytes
  {
    if bytes != [] {
      DecodeHex(bytes[1..]);
      var b, h := bytes[0], Hex(bytes);
      DigitOfHexChar(b / 16);
      DigitOfHexChar(b % 16);
      assert h[2..] == Hex(bytes[1..]);
      assert Decode(h) == [b] + Decode(h[2..]);
    }
  }

  lemma DigitPair(a: int, b: int)
    requires 0 <= a < 16 && 0 <= b < 16
    ensures (16 * a + b) / 16 == a && (16 * a + b) % 16 == b
  {
  }

  lemma HexOfPair(a: char, b: char, bytes: seq<Byte>)
    requires IsHexDigit(a) && IsHexDigit(b)
    ensures Hex([16 * Digit(a) + Digit(b)] + bytes) == [a, b] + Hex(bytes)
  {
    DigitPair(Digit(a), Digit(b));
    assert ([16 * Digit(a) + Digit(b)] + bytes)[1..] == bytes;
  }

  lemma {:induction false} HexDecode(h: string)
    requires |h| % 2 == 0 && AllHex(h)
    ensures Hex(Decode(h)) == h
  {
    if h != "" {
      HexDecode(h[2..]);
      HexOfPair(h[0], h[1], Decode(h[2..]));
      assert h == [h[0], h[1]] + h[2..];
    }
  }

  /** Every way of writing what the reader printed for `bytes` normalizes to the reader's form,
      and no other string and no other bytes do. */
  lemma PrinterRoundTrip(bytes: seq<Byte>, s: string)
    requires bytes != []
    ensures Canonical(Hex(bytes))
    ensures Normalize(s) == Hex(bytes) <==> IsVariant(s, Hex(bytes))
    ensures Normalize(Hex(bytes)) == Hex(bytes)
    ensures forall other: seq<Byte> :: Hex(other) == Hex(bytes) ==> other == bytes
  {
    DecodeHex(bytes);
    NormalizeIffVariant(s, Hex(bytes));
    HexIsVariantOfItself(Hex(bytes));
    NormalizeIffVariant(Hex(bytes), Hex(bytes));
    forall other: seq<Byte> | Hex(other) == Hex(bytes)
      ensures other == bytes
    {
      DecodeHex(other);
    }
  }

  /** What normalization accepts is exactly what the reader can print, and doing it twice changes nothing. */
  lemma NormalForms(raw: string)
    ensures Normalize(Normalize(raw)) == Normalize(raw)
    ensures Normalize(raw) != "" <==> exists bytes: seq<Byte> :: bytes != [] && IsVariant(raw, Hex(bytes))
  {
    var h := Normalize(raw);
    if h != "" {
      HexIsVariantOfItself(h);
      NormalizeIffVariant(h, h);
      HexDecode(h);
      NormalizeIffVariant(raw, h);
      assert Decode(h) != [] && IsVariant(raw, Hex(Decode(h)));
    }
    forall bytes: seq<Byte> | bytes != [] && IsVariant(raw, Hex(bytes))
      ensures h != ""
    {
      PrinterRoundTrip(bytes, raw);
    }
  }

  /** A stored key can be named by some request exactly when it is canonical or empty. */
  lemma KeyCanBeNamed(key: string)
    ensures (exists raw :: Normalize(raw) == key) <==> Canonical(key) || key == ""
  {
    if Canonical(key) {
      HexIsVariantOfItself(key);
      NormalizeIffVariant(key, key);
      assert Normalize(key) == key;
    } else if key == "" {
      assert Normalize("") == key;
    }
  }
}
