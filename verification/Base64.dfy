/**
 Base64 as the repository uses it: the standard alphabet with padding for the stored
 secret (section 4 of RFC 4648) and the URL-safe alphabet without padding for the
 `ss://` user information and the WebSocket paths (sections 5 and 3.2).
 */
module Base64 {
  import opened Bytes

  datatype Alphabet = Standard | UrlSafe

  type sextet = d: int | 0 <= d < 64

  function Digit(a: Alphabet, d: sextet): byte {
    if d < 26 then 65 + d
    else if d < 52 then 71 + d
    else if d < 62 then d - 4
    else if d == 62 then if a.Standard? then 43 else 45
    else if a.Standard? then 47 else 95
  }

  function Value(a: Alphabet, b: byte): Option<sextet> {
    if IsUpper(b) then Some(b - 65)
    else if IsLower(b) then Some(b - 71)
    else if IsDigit(b) then Some(b + 4)
    else if b == Digit(a, 62) then Some(62)
    else if b == Digit(a, 63) then Some(63)
    else None
  }

  /** The characters of an alphabet. */
  predicate InAlphabet(a: Alphabet, b: byte) { Value(a, b).Some? }

  lemma ValueOfDigit(a: Alphabet, d: sextet)
    ensures Value(a, Digit(a, d)) == Some(d)
  {}

  /** The six-bit groups of a byte string, the last one filled up with zero bits. */
  function Split(s: Text): (ds: seq<sextet>)
    ensures |ds| == (4 * |s| + 2) / 3
  {
    if s == [] then []
    else if |s| == 1 then [s[0] / 4, s[0] % 4 * 16]
    else if |s| == 2 then [s[0] / 4, s[0] % 4 * 16 + s[1] / 16, s[1] % 16 * 4]
    else [s[0] / 4, s[0] % 4 * 16 + s[1] / 16, s[1] % 16 * 4 + s[2] / 64, s[2] % 64] + Split(s[3..])
  }

  function FirstByte(p: sextet, q: sextet): byte { p * 4 + q / 16 }
  function SecondByte(p: sextet, q: sextet): byte { p % 16 * 16 + q / 4 }
  function ThirdByte(p: sextet, q: sextet): byte { p % 4 * 64 + q }

  /** The bytes of six-bit groups; left-over low bits are dropped, as Go's non-strict decoder does. */
  function Join(ds: seq<sextet>): Option<Text> {
    if ds == [] then Some([])
    else if |ds| == 1 then None
    else if |ds| == 2 then Some([FirstByte(ds[0], ds[1])])
    else if |ds| == 3 then Some([FirstByte(ds[0], ds[1]), SecondByte(ds[1], ds[2])])
    else
      var rest := Join(ds[4..]);
      if rest.None? then None
      else Some([FirstByte(ds[0], ds[1]), SecondByte(ds[1], ds[2]), ThirdByte(ds[2], ds[3])] + rest.value)
  }

  /** The three bytes of a block survive the split into four groups. */
  lemma BlockRoundTrip(x: byte, y: byte, z: byte)
    ensures x / 4 * 4 + (x % 4 * 16 + y / 16) / 16 == x
    ensures (x % 4 * 16 + y / 16) % 16 * 16 + (y % 16 * 4 + z / 64) / 4 == y
    ensures (y % 16 * 4 + z / 64) % 4 * 64 + z % 64 == z
  {
    assert (x % 4 * 16 + y / 16) / 16 == x % 4;
    assert (x % 4 * 16 + y / 16) % 16 == y / 16;
    assert (y % 16 * 4 + z / 64) / 4 == y % 16;
    assert (y % 16 * 4 + z / 64) % 4 == z / 64;
  }

  lemma {:induction false} JoinSplit(s: Text)
    ensures Join(Split(s)) == Some(s)
  {
    var ds := Split(s);
    if |s| == 1 {
      BlockRoundTrip(s[0], 0, 0);
      assert [FirstByte(ds[0], ds[1])] == s;
    } else if |s| == 2 {
      BlockRoundTrip(s[0], s[1], 0);
      assert [FirstByte(ds[0], ds[1]), SecondByte(ds[1], ds[2])] == s;
    } else if |s| > 2 {
      BlockRoundTrip(s[0], s[1], s[2]);
      JoinSplit(s[3..]);
      assert ds[4..] == Split(s[3..]);
      assert s == [s[0], s[1], s[2]] + s[3..];
    }
  }

  function Letters(a: Alphabet, ds: seq<sextet>): (t: Text)
    ensures |t| == |ds|
  {
    if ds == [] then [] else [Digit(a, ds[0])] + Letters(a, ds[1..])
  }

  function Values(a: Alphabet, t: Text): Option<seq<sextet>> {
    if t == [] then Some([])
    else
      var d, rest := Value(a, t[0]), Values(a, t[1..]);
      if d.None? || rest.None? then None else Some([d.value] + rest.value)
  }

  lemma {:induction false} ValuesOfLetters(a: Alphabet, ds: seq<sextet>)
    ensures Values(a, Letters(a, ds)) == Some(ds)
    ensures forall b :: b in Letters(a, ds) ==> InAlphabet(a, b)
  {
    if ds != [] {
      ValuesOfLetters(a, ds[1..]);
      ValueOfDigit(a, ds[0]);
      assert Letters(a, ds)[1..] == Letters(a, ds[1..]);
      assert ds == [ds[0]] + ds[1..];
    }
  }

  /** Encoding without padding. */
  function Encode(a: Alphabet, s: Text): Text { Letters(a, Split(s)) }

  /** Decoding without padding. */
  function Decode(a: Alphabet, t: Text): Option<Text> {
    var ds := Values(a, t);
    if ds.None? then None else Join(ds.value)
  }

  lemma DecodeEncode(a: Alphabet, s: Text)
    ensures Decode(a, Encode(a, s)) == Some(s)
    ensures forall b :: b in Encode(a, s) ==> InAlphabet(a, b)
  {
    ValuesOfLetters(a, Split(s));
    JoinSplit(s);
  }

  /** Standard encoding with `=` up to a multiple of four characters. */
  function EncodePadded(s: Text): Text {
    var digits := Encode(Standard, s);
    digits + seq((4 - |digits| % 4) % 4, _ => PAD)
  }

  /** Strips at most two `=` from a text whose length is a multiple of four. */
  function DecodePadded(t: Text): Option<Text> {
    if |t| % 4 != 0 then None
    else if t == [] || t[|t| - 1] != PAD then Decode(Standard, t)
    else if t[|t| - 2] != PAD then Decode(Standard, t[..|t| - 1])
    else Decode(Standard, t[..|t| - 2])
  }

  lemma DecodeEncodePadded(s: Text)
    ensures DecodePadded(EncodePadded(s)) == Some(s)
  {
    hide Value, Decode, DecodePadded;
    var digits := Encode(Standard, s);
    DecodeEncode(Standard, s);
    PadIsNoLetter(digits);
    StripPadding(digits);
  }

  lemma StripPadding(digits: Text)
    requires PAD !in digits && |digits| % 4 != 1
    ensures DecodePadded(digits + seq((4 - |digits| % 4) % 4, _ => PAD)) == Decode(Standard, digits)
  {
    var pads := (4 - |digits| % 4) % 4;
    var t := digits + seq(pads, _ => PAD);
    if pads == 2 {
      assert t[|t| - 1] == t[|t| - 2] == PAD && t[..|t| - 2] == digits;
    } else if pads == 1 {
      assert t[|t| - 2] == digits[|digits| - 1] && t[..|t| - 1] == digits;
    } else {
      assert t == digits;
    }
  }

  lemma PadIsNoLetter(digits: Text)
    requires forall b :: b in digits ==> InAlphabet(Standard, b)
    ensures PAD !in digits
  {
    assert !InAlphabet(Standard, PAD);
  }

  // The encoding, as RFC 4648 defines it.

  /** Tables 1 and 2: upper case, lower case, digits, then two signs. */
  lemma DigitsAreTheAlphabets(a: Alphabet, d: sextet)
    ensures d < 26 ==> Digit(a, d) == 'A' as int + d
    ensures 26 <= d < 52 ==> Digit(a, d) == 'a' as int + d - 26
    ensures 52 <= d < 62 ==> Digit(a, d) == '0' as int + d - 52
    ensures d == 62 ==> Digit(a, d) == if a == UrlSafe then '-' as int else '+' as int
    ensures d == 63 ==> Digit(a, d) == if a == UrlSafe then '_' as int else '/' as int
  {
  }

  /** Section 4: three bytes are one 24-bit number in four groups, first ones highest; the last group is filled with zeros. */
  lemma {:induction false} GroupsArePositional(s: Text, k: nat)
    requires 3 * k < |s|
    ensures var ds, i, j := Split(s), 3 * k, 4 * k;
            && (i + 2 < |s| ==> j + 3 < |ds|
                                && ds[j] as int * 262144 + ds[j + 1] as int * 4096 + ds[j + 2] as int * 64 + ds[j + 3]
                                   == s[i] as int * 65536 + s[i + 1] as int * 256 + s[i + 2])
            && (i + 2 == |s| ==> j + 3 == |ds|
                                 && ds[j] as int * 4096 + ds[j + 1] as int * 64 + ds[j + 2]
                                    == (s[i] as int * 256 + s[i + 1]) * 4)
            && (i + 1 == |s| ==> j + 2 == |ds| && ds[j] as int * 64 + ds[j + 1] == s[i] as int * 16)
    decreases k
  {
    if k == 0 {
      BlockValue(s[0], if |s| > 1 then s[1] else 0, if |s| > 2 then s[2] else 0);
    } else {
      GroupsArePositional(s[3..], k - 1);
    }
  }

  lemma BlockValue(x: byte, y: byte, z: byte)
    ensures x / 4 * 262144 + (x % 4 * 16 + y / 16) * 4096 + (y % 16 * 4 + z / 64) * 64 + z % 64
            == x * 65536 + y * 256 + z
    ensures x / 4 * 4096 + (x % 4 * 16 + y / 16) * 64 + y % 16 * 4 == (x * 256 + y) * 4
    ensures x / 4 * 64 + x % 4 * 16 == x * 16
  {
  }

  /** An encoding is its groups' characters. */
  lemma EncodingIsItsGroups(a: Alphabet, s: Text)
    ensures |Encode(a, s)| == |Split(s)|
    ensures forall i :: 0 <= i < |Split(s)| ==> Encode(a, s)[i] == Digit(a, Split(s)[i])
  {
    LettersAt(a, Split(s));
  }

  /** With padding, `=` fills the last block of four. */
  lemma PaddingFillsTheBlock(s: Text)
    ensures var digits, padded := Encode(Standard, s), EncodePadded(s);
            && digits <= padded && |padded| % 4 == 0 && |padded| < |digits| + 4
            && forall i :: |digits| <= i < |padded| ==> padded[i] == '=' as int
  {
    hide Encode;
  }

  lemma {:induction false} LettersAt(a: Alphabet, ds: seq<sextet>)
    ensures forall i :: 0 <= i < |ds| ==> Letters(a, ds)[i] == Digit(a, ds[i])
  {
    if ds != [] {
      LettersAt(a, ds[1..]);
    }
  }
}
