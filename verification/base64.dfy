/** The "base64" encoding of RFC 4648, section 4: the standard alphabet
    `A-Z a-z 0-9 + /` with `=` padding, as the `STANDARD` engine of the Rust
    `base64` crate produces it.  DuckDB blobs reach the front end in this form.
    `Decode` is the partner that shows no two blobs share an encoding. */
module Base64 {
  import opened Wrappers
  import opened Primitives

  /** The character for a 6-bit group. */
  function Sextet(i: nat): (c: char)
    requires i < 64
    ensures IsAlphabetChar(c)
  {
    if i < 26 then ('A' as int + i) as char
    else if i < 52 then ('a' as int + i - 26) as char
    else if i < 62 then ('0' as int + i - 52) as char
    else if i == 62 then '+'
    else '/'
  }

  predicate IsAlphabetChar(c: char) {
    ('A' <= c <= 'Z') || ('a' <= c <= 'z') || ('0' <= c <= '9') || c == '+' || c == '/'
  }

  /** The 6-bit group an alphabet character stands for. */
  function SextetValue(c: char): (v: nat)
    requires IsAlphabetChar(c)
    ensures v < 64
  {
    if 'A' <= c <= 'Z' then c as int - 'A' as int
    else if 'a' <= c <= 'z' then c as int - 'a' as int + 26
    else if '0' <= c <= '9' then c as int - '0' as int + 52
    else if c == '+' then 62
    else 63
  }

  lemma SextetRoundTrip(i: nat)
    requires i < 64
    ensures SextetValue(Sextet(i)) == i
  {
  }

  /** Three octets as four characters. */
  function EncodeBlock(x: byte, y: byte, z: byte): string {
    [Sextet(x / 4), Sextet((x % 4) * 16 + y / 16), Sextet((y % 16) * 4 + z / 64), Sextet(z % 64)]
  }

  /** Padded encoding: every three octets become four characters, and a final
      group of one or two octets is padded with `==` or `=`. */
  function Encode(b: Bytes): (s: string)
    ensures |s| == 4 * ((|b| + 2) / 3)
    decreases |b|
  {
    if |b| == 0 then ""
    else if |b| == 1 then [Sextet(b[0] / 4), Sextet((b[0] % 4) * 16), '=', '=']
    else if |b| == 2 then [Sextet(b[0] / 4), Sextet((b[0] % 4) * 16 + b[1] / 16), Sextet((b[1] % 16) * 4), '=']
    else EncodeBlock(b[0], b[1], b[2]) + Encode(b[3..])
  }

  /** Reads one group of four characters; `=` padding is accepted only in the
      last group of the input, and the bits it leaves over must be zero. */
  function DecodeGroup(g: string, last: bool): Option<Bytes>
    requires |g| == 4
  {
    if !IsAlphabetChar(g[0]) || !IsAlphabetChar(g[1]) then None
    else
      var a, b := SextetValue(g[0]), SextetValue(g[1]);
      if last && g[2] == '=' && g[3] == '=' then
        if b % 16 == 0 then Some([a * 4 + b / 16]) else None
      else if !IsAlphabetChar(g[2]) then None
      else
        var c := SextetValue(g[2]);
        if last && g[3] == '=' then
          if c % 4 == 0 then Some([a * 4 + b / 16, (b % 16) * 16 + c / 4]) else None
        else if !IsAlphabetChar(g[3]) then None
        else Some([a * 4 + b / 16, (b % 16) * 16 + c / 4, (c % 4) * 64 + SextetValue(g[3])])
  }

  /** Reads a padded encoding back; a character outside the alphabet, a misplaced
      `=`, a length that is not a multiple of four or non-zero padding bits are
      refused. */
  function Decode(s: string): Option<Bytes>
    decreases |s|
  {
    if |s| == 0 then Some([])
    else if |s| < 4 then None
    else
      match DecodeGroup(s[..4], |s| == 4)
      case None => None
      case Some(g) =>
        match Decode(s[4..])
        case Some(rest) => Some(g + rest)
        case None => None
  }

  lemma BlockArithmetic(x: byte, y: byte, z: byte)
    ensures (x / 4) * 4 + ((x % 4) * 16 + y / 16) / 16 == x
    ensures (((x % 4) * 16 + y / 16) % 16) * 16 + ((y % 16) * 4 + z / 64) / 4 == y
    ensures (((y % 16) * 4 + z / 64) % 4) * 64 + z % 64 == z
  {
  }

  lemma DecodeEncodeOne(x: byte)
    ensures DecodeGroup(Encode([x]), true) == Some([x])
  {
    BlockArithmetic(x, 0, 0);
    SextetRoundTrip(x / 4);
    SextetRoundTrip((x % 4) * 16);
  }

  lemma DecodeEncodeTwo(x: byte, y: byte)
    ensures DecodeGroup(Encode([x, y]), true) == Some([x, y])
  {
    var s := Encode([x, y]);
    BlockArithmetic(x, y, 0);
    SextetRoundTrip(x / 4);
    SextetRoundTrip((x % 4) * 16 + y / 16);
    SextetRoundTrip((y % 16) * 4);
    var a, b, c := SextetValue(s[0]), SextetValue(s[1]), SextetValue(s[2]);
    assert c == (y % 16) * 4 && c % 4 == 0;
    assert s[2] != '=' && s[3] == '=';
    assert [a * 4 + b / 16, (b % 16) * 16 + c / 4] == [x, y];
  }

  lemma DecodeEncodeBlock(x: byte, y: byte, z: byte, last: bool)
    ensures DecodeGroup(EncodeBlock(x, y, z), last) == Some([x, y, z])
  {
    var s := EncodeBlock(x, y, z);
    BlockArithmetic(x, y, z);
    SextetRoundTrip(x / 4);
    SextetRoundTrip((x % 4) * 16 + y / 16);
    SextetRoundTrip((y % 16) * 4 + z / 64);
    SextetRoundTrip(z % 64);
    assert s[2] != '=' && s[3] != '=';
  }

  /** Decoding proceeds one group at a time. */
  lemma DecodeCons(g: string, rest: string, x: Bytes, r: Bytes)
    requires |g| == 4
    requires DecodeGroup(g, |rest| == 0) == Some(x)
    requires Decode(rest) == Some(r)
    ensures Decode(g + rest) == Some(x + r)
  {
    var s := g + rest;
    assert s[..4] == g && s[4..] == rest;
  }

  lemma DecodeEncodeShort(b: Bytes)
    requires 1 <= |b| <= 2
    ensures Decode(Encode(b)) == Some(b)
  {
    if |b| == 1 {
      assert b == [b[0]];
      DecodeEncodeOne(b[0]);
    } else {
      assert b == [b[0], b[1]];
      DecodeEncodeTwo(b[0], b[1]);
    }
    DecodeCons(Encode(b), "", b, []);
    assert Encode(b) + "" == Encode(b) && b + [] == b;
  }

  /** Every blob is recovered from its encoding. */
  lemma {:induction false} DecodeEncode(b: Bytes)
    ensures Decode(Encode(b)) == Some(b)
    decreases |b|
  {
    if 1 <= |b| <= 2 {
      DecodeEncodeShort(b);
    } else if |b| >= 3 {
      var head, tail := b[..3], b[3..];
      var rest := Encode(tail);
      assert Encode(b) == EncodeBlock(b[0], b[1], b[2]) + rest;
      DecodeEncodeBlock(b[0], b[1], b[2], |rest| == 0);
      DecodeEncode(tail);
      assert head == [b[0], b[1], b[2]];
      DecodeCons(EncodeBlock(b[0], b[1], b[2]), rest, head, tail);
      assert b == head + tail;
    }
  }

  /** Every character of an encoding is from the alphabet or is padding, and
      padding only occupies the last two positions. */
  lemma {:induction false} EncodeAlphabet(b: Bytes)
    ensures forall i | 0 <= i < |Encode(b)| :: IsAlphabetChar(Encode(b)[i]) || Encode(b)[i] == '='
    ensures forall i | 0 <= i < |Encode(b)| - 2 :: Encode(b)[i] != '='
    decreases |b|
  {
    if |b| >= 3 {
      EncodeAlphabet(b[3..]);
      var s, block, rest := Encode(b), EncodeBlock(b[0], b[1], b[2]), Encode(b[3..]);
      assert s == block + rest;
      forall i | 0 <= i < |s|
        ensures IsAlphabetChar(s[i]) || s[i] == '='
        ensures i < |s| - 2 ==> s[i] != '='
      {
        if i >= 4 {
          assert s[i] == rest[i - 4];
        }
      }
    }
  }

  /** Two blobs have the same encoding only if they are equal. */
  lemma EncodeInjective(b1: Bytes, b2: Bytes)
    ensures Encode(b1) == Encode(b2) <==> b1 == b2
  {
    DecodeEncode(b1);
    DecodeEncode(b2);
  }
}
