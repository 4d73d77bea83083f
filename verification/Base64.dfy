/**
 * The URL-safe, unpadded base64 of sections 3.5 and 5 of RFC 4648, with the strict decoder the broker
 * uses: no padding character, no dangling character, no non-zero trailing bits.
 */
module Base64 {
  import opened Wrappers

  type byte = b: int | 0 <= b < 256

  type Bytes = seq<byte>

  type sextet = v: int | 0 <= v < 64

  function CharOf(v: sextet): char {
    if v < 26 then (v + 65) as char
    else if v < 52 then (v + 71) as char
    else if v < 62 then (v - 4) as char
    else if v == 62 then '-'
    else '_'
  }

  function ValueOf(c: char): Option<sextet> {
    if 'A' <= c <= 'Z' then Some(c as int - 65)
    else if 'a' <= c <= 'z' then Some(c as int - 71)
    else if '0' <= c <= '9' then Some(c as int + 4)
    else if c == '-' then Some(62)
    else if c == '_' then Some(63)
    else None
  }

  // A group of three bytes is four sextets. A short final group is padded with zero bytes before it is
  // split, and only its first two or three sextets are written.
  datatype Group = Group(p: sextet, q: sextet, u: sextet, v: sextet)

  function Split(x: byte, y: byte, z: byte): Group {
    Group(x / 4, x % 4 * 16 + y / 16, y % 16 * 4 + z / 64, z % 64)
  }

  function Join(g: Group): Bytes {
    [g.p * 4 + g.q / 16, g.q % 16 * 16 + g.u / 4, g.u % 4 * 64 + g.v]
  }

  lemma JoinSplit(x: byte, y: byte, z: byte)
    ensures Join(Split(x, y, z)) == [x, y, z]
  {
  }

  lemma SplitJoin(g: Group)
    ensures Split(Join(g)[0], Join(g)[1], Join(g)[2]) == g
  {
    FirstPart(g.p, g.q);
    MiddlePart(g.q, g.u);
    LastPart(g.u, g.v);
  }

  lemma FirstPart(p: sextet, q: sextet)
    ensures (p * 4 + q / 16) / 4 == p && (p * 4 + q / 16) % 4 == q / 16
  {
  }

  lemma MiddlePart(q: sextet, u: sextet)
    ensures (q % 16 * 16 + u / 4) / 16 == q % 16 && (q % 16 * 16 + u / 4) % 16 == u / 4
  {
  }

  lemma LastPart(u: sextet, v: sextet)
    ensures (u % 4 * 64 + v) / 64 == u % 4 && (u % 4 * 64 + v) % 64 == v
  {
  }

  function Chars(g: Group): string {
    [CharOf(g.p), CharOf(g.q), CharOf(g.u), CharOf(g.v)]
  }

  function Values(s: string): Option<Group>
    requires |s| == 4
  {
    match (ValueOf(s[0]), ValueOf(s[1]), ValueOf(s[2]), ValueOf(s[3]))
    case (Some(p), Some(q), Some(u), Some(v)) => Some(Group(p, q, u, v))
    case _ => None
  }

  lemma ValuesChars(g: Group)
    ensures Values(Chars(g)) == Some(g)
  {
  }

  lemma CharsValues(s: string)
    requires |s| == 4 && Values(s).Some?
    ensures Chars(Values(s).value) == s
  {
  }

  function Encode(b: Bytes): string {
    if b == [] then ""
    else if |b| == 1 then Chars(Split(b[0], 0, 0))[..2]
    else if |b| == 2 then Chars(Split(b[0], b[1], 0))[..3]
    else Chars(Split(b[0], b[1], b[2])) + Encode(b[3..])
  }

  // The zero sextet is written 'A', so a short final group is completed with 'A's; it is accepted only if
  // the bytes that completion adds are zero.
  function DecodeTail(s: string): Option<Bytes>
    requires 2 <= |s| <= 3
  {
    match Values(s + "AA"[..4 - |s|])
    case Some(g) =>
      var b := Join(g);
      if |s| == 2 then (if b[1] == 0 then Some(b[..1]) else None)
      else if b[2] == 0 then Some(b[..2])
      else None
    case None => None
  }

  function Decode(s: string): Option<Bytes> {
    if s == "" then Some([])
    else if |s| == 1 then None
    else if |s| <= 3 then DecodeTail(s)
    else
      match (Values(s[..4]), Decode(s[4..]))
      case (Some(g), Some(rest)) => Some(Join(g) + rest)
      case _ => None
  }

  lemma TailDecodes(g: Group, n: nat)
    requires 2 <= n <= 3 && g.v == 0
    requires n == 2 ==> g.u == 0
    requires Join(g)[n - 1] == 0
    ensures DecodeTail(Chars(g)[..n]) == Some(Join(g)[..n - 1])
  {
    var s := Chars(g)[..n];
    assert CharOf(0) == 'A';
    assert s + "AA"[..4 - n] == Chars(g);
    ValuesChars(g);
  }

  lemma DecodeEncodeTail(x: byte, y: byte, n: nat)
    requires 1 <= n <= 2
    requires n == 1 ==> y == 0
    ensures DecodeTail(Chars(Split(x, y, 0))[..n + 1]) == Some([x, y][..n])
  {
    var g := Split(x, y, 0);
    JoinSplit(x, y, 0);
    TailDecodes(g, n + 1);
    assert [x, y, 0][..n] == [x, y][..n];
  }

  lemma DecodeGroup(g: Group, rest: string)
    requires Decode(rest).Some?
    ensures Decode(Chars(g) + rest) == Some(Join(g) + Decode(rest).value)
  {
    var s := Chars(g) + rest;
    assert s[..4] == Chars(g) && s[4..] == rest;
    ValuesChars(g);
  }

  /** Every byte string survives an encode followed by a decode. */
  lemma {:induction false} DecodeEncode(b: Bytes)
    ensures Decode(Encode(b)) == Some(b)
  {
    hide Chars, Split, Join, DecodeTail, Values;
    if b == [] {
    } else if |b| <= 2 {
      DecodeEncodeShort(b);
    } else {
      DecodeEncode(b[3..]);
      DecodeGroup(Split(b[0], b[1], b[2]), Encode(b[3..]));
      JoinSplit(b[0], b[1], b[2]);
      assert b == [b[0], b[1], b[2]] + b[3..];
    }
  }

  lemma DecodeEncodeShort(b: Bytes)
    requires 1 <= |b| <= 2
    ensures Decode(Encode(b)) == Some(b)
  {
    hide Split, Join, DecodeTail, Values, CharOf;
    if |b| == 1 {
      DecodeEncodeTail(b[0], 0, 1);
      assert |Encode(b)| == 2;
      assert b == [b[0], 0][..1];
    } else {
      DecodeEncodeTail(b[0], b[1], 2);
      assert |Encode(b)| == 3;
      assert b == [b[0], b[1]][..2];
    }
  }

  lemma EncodeDecodeTail(s: string)
    requires 2 <= |s| <= 3 && DecodeTail(s).Some?
    ensures Encode(DecodeTail(s).value) == s
  {
    var full := s + "AA"[..4 - |s|];
    var g := Values(full).value;
    CharsValues(full);
    SplitJoin(g);
    assert s == full[..|s|];
  }

  /** Decoding is strict: an accepted text is the one encoding of the bytes it decodes to. */
  lemma {:induction false} EncodeDecode(s: string)
    requires Decode(s).Some?
    ensures Encode(Decode(s).value) == s
  {
    if s == "" {
    } else if |s| <= 3 {
      EncodeDecodeTail(s);
    } else {
      var g := Values(s[..4]).value;
      CharsValues(s[..4]);
      SplitJoin(g);
      EncodeDecode(s[4..]);
      var b := Decode(s).value;
      assert b[3..] == Decode(s[4..]).value;
      assert s == s[..4] + s[4..];
    }
  }

  /** The length of an encoding depends on the length of its input alone. */
  lemma {:induction false} EncodeLength(b: Bytes)
    ensures |Encode(b)| == (4 * |b| + 2) / 3
  {
    if |b| >= 3 {
      EncodeLength(b[3..]);
    }
  }

  /** Table 2 of RFC 4648: capital letters, small letters, digits, and then a dash and an underscore. */
  function Letter(v: sextet): char {
    if v < 26 then ('A' as int + v) as char
    else if v < 52 then ('a' as int + (v - 26)) as char
    else if v < 62 then ('0' as int + (v - 52)) as char
    else if v == 62 then '-' else '_'
  }

  lemma LetterMeans(v: sextet)
    ensures CharOf(v) == Letter(v)
  {
  }

  lemma SixBitDigits(p: sextet, q: sextet, u: sextet, v: sextet)
    ensures var n := 262144 * p + 4096 * q + 64 * u + v;
            n / 262144 == p && n / 4096 % 64 == q && n / 64 % 64 == u && n % 64 == v
  {
    var n := 262144 * p + 4096 * q + 64 * u + v;
    assert n / 64 == 4096 * p + 64 * q + u;
    assert n / 4096 == 64 * p + q;
  }

  lemma SplitMeans(x: byte, y: byte, z: byte)
    ensures var n := 65536 * x + 256 * y + z;
            Split(x, y, z) == Group(n / 262144, n / 4096 % 64, n / 64 % 64, n % 64)
  {
    SixBitDigits(x / 4, x % 4 * 16 + y / 16, y % 16 * 4 + z / 64, z % 64);
    assert x == 4 * (x / 4) + x % 4 && y == 16 * (y / 16) + y % 16 && z == 64 * (z / 64) + z % 64;
  }

  /** Three bytes, as one number of 24 bits, are the four characters of its six-bit digits. */
  lemma EncodedGroup(x: byte, y: byte, z: byte, rest: Bytes)
    ensures var n := 65536 * x + 256 * y + z;
            Encode([x, y, z] + rest)
            == [Letter(n / 262144), Letter(n / 4096 % 64), Letter(n / 64 % 64), Letter(n % 64)] + Encode(rest)
    ensures Encode([x]) == [Letter(x / 4), Letter(x % 4 * 16)]
    ensures Encode([x, y]) == [Letter(x / 4), Letter(x % 4 * 16 + y / 16), Letter(y % 16 * 4)]
  {
    hide CharOf, Split, Letter;
    var b := [x, y, z] + rest;
    assert b[0] == x && b[1] == y && b[2] == z && b[3..] == rest;
    GroupCharsMean(x, y, z);
    GroupCharsMean(x, 0, 0);
    GroupCharsMean(x, y, 0);
    TailCharsMean(x, y);
  }

  lemma GroupCharsMean(x: byte, y: byte, z: byte)
    ensures var n := 65536 * x + 256 * y + z;
            Chars(Split(x, y, z)) == [Letter(n / 262144), Letter(n / 4096 % 64), Letter(n / 64 % 64), Letter(n % 64)]
  {
    hide CharOf, Split, Letter;
    SplitMeans(x, y, z);
    var g := Split(x, y, z);
    LetterMeans(g.p);
    LetterMeans(g.q);
    LetterMeans(g.u);
    LetterMeans(g.v);
  }

  lemma TailCharsMean(x: byte, y: byte)
    ensures Chars(Split(x, 0, 0))[..2] == [Letter(x / 4), Letter(x % 4 * 16)]
    ensures Chars(Split(x, y, 0))[..3] == [Letter(x / 4), Letter(x % 4 * 16 + y / 16), Letter(y % 16 * 4)]
  {
    hide CharOf, Letter;
    LetterMeans(x / 4);
    LetterMeans(x % 4 * 16);
    LetterMeans(x % 4 * 16 + y / 16);
    LetterMeans(y % 16 * 4);
  }
}
