/** The two string helpers of the test utilities: the wide-to-narrow
    conversion used for export names, and the canonical GUID text
    `{XXXXXXXX-XXXX-XXXX-XXXX-XXXXXXXXXXXX}` (the layout of section 3 of
    RFC 4122, upper-case, in braces). */
module TestUtils {
  import opened Platform

  const NUL: char := 0 as char

  /** The characters of a NUL-terminated wide string, up to (not
      including) its first NUL. */
  function UpToNul(w: string): (r: string)
    ensures r <= w
    ensures NUL !in r
    ensures |r| < |w| ==> w[|r|] == NUL
  {
    if w == [] || w[0] == NUL then [] else [w[0]] + UpToNul(w[1..])
  }

  /** Narrow: the length query counts the converted characters plus the
      terminator slot, the conversion fills that many slots, and the final
      pop removes the terminator. Characters are converted one to one. */
  function Narrow(wide: string): (r: string)
    ensures r <= wide && NUL !in r
    ensures |r| < |wide| ==> wide[|r|] == NUL
    ensures NUL !in wide ==> r == wide
  {
    var len := |UpToNul(wide)| + 1;
    var buffer := UpToNul(wide) + [NUL];
    buffer[..len - 1]
  }

  predicate IsUpperHexDigit(c: char)
  {
    '0' <= c <= '9' || 'A' <= c <= 'F'
  }

  /** The digit printed by `%X` for a value below 16. */
  function HexDigit(v: nat): (c: char)
    requires v < 16
    ensures IsUpperHexDigit(c)
  {
    if v < 10 then ('0' as int + v) as char else ('A' as int + v - 10) as char
  }

  /** The value of an upper-case hexadecimal digit. */
  function DigitValue(c: char): (v: nat)
    requires IsUpperHexDigit(c)
    ensures v < 16 && HexDigit(v) == c
  {
    if c <= '9' then c as int - '0' as int else c as int - 'A' as int + 10
  }

  function Pow16(n: nat): (p: nat)
    ensures p >= 1
  {
    if n == 0 then 1 else 16 * Pow16(n - 1)
  }

  lemma Pow16Values()
    ensures Pow16(2) == 0x100 && Pow16(4) == 0x1_0000 && Pow16(8) == 0x1_0000_0000
  {
    assert Pow16(1) == 16;
    assert Pow16(3) == 0x1000;
    assert Pow16(6) == 0x100_0000;
  }

  /** `%0<width>X` of a value that fits in `width` digits: most significant
      digit first, zero-padded on the left. */
  function Hex(v: nat, width: nat): (s: string)
    requires v < Pow16(width)
    ensures |s| == width
    ensures forall i :: 0 <= i < |s| ==> IsUpperHexDigit(s[i])
    decreases width
  {
    if width == 0 then [] else Hex(v / 16, width - 1) + [HexDigit(v % 16)]
  }

  predicate AllHex(s: string)
  {
    forall i :: 0 <= i < |s| ==> IsUpperHexDigit(s[i])
  }

  /** Reads a run of upper-case hexadecimal digits as a number. */
  function ParseHex(s: string): (v: nat)
    requires AllHex(s)
    ensures v < Pow16(|s|)
  {
    if s == [] then 0 else ParseHex(s[..|s| - 1]) * 16 + DigitValue(s[|s| - 1])
  }

  /** Parsing the digits printed by Hex gives back the value. */
  lemma {:induction false} ParseHexOfHex(v: nat, width: nat)
    requires v < Pow16(width)
    ensures ParseHex(Hex(v, width)) == v
    decreases width
  {
    if width > 0 {
      var s := Hex(v, width);
      ParseHexOfHex(v / 16, width - 1);
      assert s[..|s| - 1] == Hex(v / 16, width - 1);
      assert s[|s| - 1] == HexDigit(v % 16);
    }
  }

  /** `%02hhX`: the high and the low digit of a byte. */
  function ByteText(b: u8): (s: string)
    ensures |s| == 2 && IsUpperHexDigit(s[0]) && IsUpperHexDigit(s[1])
    ensures DigitValue(s[0]) * 16 + DigitValue(s[1]) == b
  {
    HexDigitRoundTrip(b / 16);
    HexDigitRoundTrip(b % 16);
    [HexDigit(b / 16), HexDigit(b % 16)]
  }

  lemma HexDigitRoundTrip(v: nat)
    requires v < 16
    ensures DigitValue(HexDigit(v)) == v
  {
  }

  /** The two digits of each byte, in index order. */
  function HexBytes(bytes: seq<u8>): (s: string)
    ensures |s| == 2 * |bytes|
    ensures AllHex(s)
    ensures forall k :: 0 <= k < |bytes| ==>
      s[2 * k] == ByteText(bytes[k])[0] && s[2 * k + 1] == ByteText(bytes[k])[1]
  {
    if bytes == [] then []
    else
      var rest := HexBytes(bytes[1..]);
      var head := ByteText(bytes[0]);
      var s := head + rest;
      forall k | 0 <= k < |bytes|
        ensures s[2 * k] == ByteText(bytes[k])[0] && s[2 * k + 1] == ByteText(bytes[k])[1]
      {
        if k > 0 {
          assert bytes[k] == bytes[1..][k - 1];
          assert s[2 * k] == rest[2 * (k - 1)];
          assert s[2 * k + 1] == rest[2 * (k - 1) + 1];
        }
      }
      assert AllHex(s) by {
        forall i | 0 <= i < |s| ensures IsUpperHexDigit(s[i]) {
          if i >= 2 { assert s[i] == rest[i - 2]; }
        }
      }
      s
  }

  /** The fixed frame of the canonical text around its five digit groups. */
  function Frame(a: string, b: string, c: string, d: string, e: string): (s: string)
    requires |a| == 8 && |b| == 4 && |c| == 4 && |d| == 4 && |e| == 12
    ensures |s| == 38
    ensures s[0] == '{' && s[37] == '}'
    ensures s[9] == '-' && s[14] == '-' && s[19] == '-' && s[24] == '-'
    ensures s[1..9] == a && s[10..14] == b && s[15..19] == c && s[20..24] == d && s[25..37] == e
  {
    var tail := "-" + e + "}";
    var t3 := "-" + d + tail;
    var t2 := "-" + c + t3;
    var t1 := "-" + b + t2;
    var s := "{" + a + t1;
    assert s[1..9] == a;
    assert s[9..] == t1;
    assert t1[1..5] == b && t1[5..] == t2;
    assert t2[1..5] == c && t2[5..] == t3;
    assert t3[1..5] == d && t3[5..] == tail;
    assert tail[1..13] == e;
    s
  }

  /** GUIDToWString: `%08lX-%04hX-%04hX-%02hhX%02hhX-` followed by six
      `%02hhX`, in braces, printed into a 40-wide buffer. */
  function GuidToWString(g: Guid): (s: string)
    ensures |s| == 38 && |s| + 1 <= 40
    ensures IsGuidText(s)
  {
    Pow16Values();
    var s := Frame(Hex(g.data1, 8), Hex(g.data2, 4), Hex(g.data3, 4),
                   HexBytes(g.data4[..2]), HexBytes(g.data4[2..]));
    assert forall i :: 1 <= i < 9 ==> s[i] == s[1..9][i - 1];
    assert forall i :: 10 <= i < 14 ==> s[i] == s[10..14][i - 10];
    assert forall i :: 15 <= i < 19 ==> s[i] == s[15..19][i - 15];
    assert forall i :: 20 <= i < 24 ==> s[i] == s[20..24][i - 20];
    assert forall i :: 25 <= i < 37 ==> s[i] == s[25..37][i - 25];
    s
  }

  /** Positions of the 32 digits in the 38-character text. */
  predicate IsDigitPosition(i: int)
  {
    0 < i < 37 && i != 9 && i != 14 && i != 19 && i != 24
  }

  /** The 8-4-4-4-12 shape: braces, four dashes, 32 upper-case digits. */
  predicate IsGuidText(s: string)
  {
    && |s| == 38
    && s[0] == '{' && s[37] == '}'
    && s[9] == '-' && s[14] == '-' && s[19] == '-' && s[24] == '-'
    && forall i :: 0 <= i < 38 && IsDigitPosition(i) ==> IsUpperHexDigit(s[i])
  }

  /** Reads pairs of upper-case hexadecimal digits as bytes, high digit
      first. */
  function ParseBytes(s: string): (b: seq<u8>)
    requires AllHex(s) && |s| % 2 == 0
    ensures |b| == |s| / 2
  {
    if s == [] then []
    else [DigitValue(s[0]) * 16 + DigitValue(s[1])] + ParseBytes(s[2..])
  }

  /** Reading back the digit pairs HexBytes printed gives the bytes. */
  lemma {:induction false} ParseBytesOfHexBytes(bytes: seq<u8>)
    ensures ParseBytes(HexBytes(bytes)) == bytes
  {
    if bytes != [] {
      var s := HexBytes(bytes);
      assert s == ByteText(bytes[0]) + HexBytes(bytes[1..]);
      assert s[2..] == HexBytes(bytes[1..]);
      ParseBytesOfHexBytes(bytes[1..]);
    }
  }

  /** The five digit groups of a canonical 8-4-4-4-12 text. */
  lemma DigitGroups(s: string)
    requires IsGuidText(s)
    ensures AllHex(s[1..9]) && AllHex(s[10..14]) && AllHex(s[15..19])
    ensures AllHex(s[20..24]) && AllHex(s[25..37])
  {
    assert forall k :: 1 <= k < 37 && k != 9 && k != 14 && k != 19 && k != 24 ==> IsDigitPosition(k);
  }

  /** Reads the GUID back from its canonical text: the first three groups
      as numbers, the last two as the bytes of `Data4`. */
  function ParseGuid(s: string): (r: Option<Guid>)
    ensures r.Some? <==> IsGuidText(s)
  {
    if !IsGuidText(s) then None
    else
      Pow16Values();
      DigitGroups(s);
      Some(Guid(ParseHex(s[1..9]), ParseHex(s[10..14]), ParseHex(s[15..19]),
                ParseBytes(s[20..24]) + ParseBytes(s[25..37])))
  }

  /** Where each field lands: Data1 as 8 digits, Data2 and Data3 as 4 each,
      the first two bytes of Data4 as the fourth group and the other six as
      the fifth. */
  lemma GuidGroups(g: Guid)
    ensures Pow16(8) == 0x1_0000_0000 && Pow16(4) == 0x1_0000 && Pow16(2) == 0x100
    ensures GuidToWString(g)[1..9] == Hex(g.data1, 8)
    ensures GuidToWString(g)[10..14] == Hex(g.data2, 4)
    ensures GuidToWString(g)[15..19] == Hex(g.data3, 4)
    ensures GuidToWString(g)[20..24] == HexBytes(g.data4[..2])
    ensures GuidToWString(g)[25..37] == HexBytes(g.data4[2..])
  {
    Pow16Values();
  }

  /** Parsing the text of a GUID gives back every field of it. */
  lemma GuidTextRoundTrip(g: Guid)
    ensures ParseGuid(GuidToWString(g)) == Some(g)
  {
    var s := GuidToWString(g);
    GuidGroups(g);
    ParseHexOfHex(g.data1, 8);
    ParseHexOfHex(g.data2, 4);
    ParseHexOfHex(g.data3, 4);
    ParseBytesOfHexBytes(g.data4[..2]);
    ParseBytesOfHexBytes(g.data4[2..]);
    assert g.data4[..2] + g.data4[2..] == g.data4;
  }

  /** Distinct GUIDs print as distinct strings. */
  lemma GuidTextInjective(a: Guid, b: Guid)
    ensures GuidToWString(a) == GuidToWString(b) ==> a == b
  {
    GuidTextRoundTrip(a);
    GuidTextRoundTrip(b);
  }
}
