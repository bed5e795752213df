/** Unpadded base64url (section 5 of RFC 4648) as Go's RawURLEncoding has it:
    the decoder skips line breaks and ignores the spare bits of the last group. */
module Base64 {
  import opened Wrappers
  import opened ByteStrings

  type Sextet = x: int | 0 <= x < 64

  const LF := 10
  const CR := 13

  function Letter(v: Sextet): Byte {
    if v < 26 then 65 + v
    else if v < 52 then 97 + v - 26
    else if v < 62 then 48 + v - 52
    else if v == 62 then 45
    else 95
  }

  function Value(c: Byte): Option<Sextet> {
    if 65 <= c <= 90 then Some(c - 65)
    else if 97 <= c <= 122 then Some(c - 97 + 26)
    else if 48 <= c <= 57 then Some(c - 48 + 52)
    else if c == 45 then Some(62)
    else if c == 95 then Some(63)
    else None
  }

  /** The letters of a text as values; None at a letter outside the alphabet. */
  function Values(text: Bytes): Option<seq<Sextet>> {
    if text == [] then Some([])
    else if text[0] == LF || text[0] == CR then Values(text[1..])
    else
      match Value(text[0])
      case None => None
      case Some(v) =>
        match Values(text[1..])
        case None => None
        case Some(rest) => Some([v] + rest)
  }

  function Letters(values: seq<Sextet>): Bytes {
    if values == [] then [] else [Letter(values[0])] + Letters(values[1..])
  }

  function Top(a: Byte): Sextet { a / 4 }

  function Upper(a: Byte, b: Byte): Sextet { a % 4 * 16 + b / 16 }

  function Lower(b: Byte, c: Byte): Sextet { b % 16 * 4 + c / 64 }

  function Bottom(c: Byte): Sextet { c % 64 }

  function Sextets(data: Bytes): seq<Sextet> {
    if |data| == 0 then []
    else if |data| == 1 then [Top(data[0]), Upper(data[0], 0)]
    else if |data| == 2 then [Top(data[0]), Upper(data[0], data[1]), Lower(data[1], 0)]
    else [Top(data[0]), Upper(data[0], data[1]), Lower(data[1], data[2]), Bottom(data[2])] + Sextets(data[3..])
  }

  function First(a: Sextet, b: Sextet): Byte { a * 4 + b / 16 }

  function Second(b: Sextet, c: Sextet): Byte { b % 16 * 16 + c / 4 }

  function Third(c: Sextet, d: Sextet): Byte { c % 4 * 64 + d }

  /** A last group of one letter carries no byte and is malformed. */
  function Octets(v: seq<Sextet>): Option<Bytes> {
    if |v| == 0 then Some([])
    else if |v| == 1 then None
    else if |v| == 2 then Some([First(v[0], v[1])])
    else if |v| == 3 then Some([First(v[0], v[1]), Second(v[1], v[2])])
    else
      match Octets(v[4..])
      case None => None
      case Some(rest) => Some([First(v[0], v[1]), Second(v[1], v[2]), Third(v[2], v[3])] + rest)
  }

  function Encode(data: Bytes): Bytes {
    Letters(Sextets(data))
  }

  function Decode(text: Bytes): Option<Bytes> {
    match Values(text)
    case None => None
    case Some(values) => Octets(values)
  }

  lemma {:induction false} LettersRoundTrip(values: seq<Sextet>)
    ensures Values(Letters(values)) == Some(values)
  {
    if values != [] {
      LettersRoundTrip(values[1..]);
      assert Letters(values)[1..] == Letters(values[1..]);
      assert values == [values[0]] + values[1..];
    }
  }

  lemma FirstBack(a: Byte, b: Byte)
    ensures First(Top(a), Upper(a, b)) == a
  {}

  lemma SecondBack(a: Byte, b: Byte, c: Byte)
    ensures Second(Upper(a, b), Lower(b, c)) == b
  {
    var x, y, z, w := a % 4, b / 16, b % 16, c / 64;
    assert (x * 16 + y) % 16 == y;
    assert (z * 4 + w) / 4 == z;
  }

  lemma ThirdBack(b: Byte, c: Byte)
    ensures Third(Lower(b, c), Bottom(c)) == c
  {
    var z, w := b % 16, c / 64;
    assert (z * 4 + w) % 4 == w;
  }

  lemma FullGroup(a: Byte, b: Byte, c: Byte, tail: seq<Sextet>)
    ensures Octets([Top(a), Upper(a, b), Lower(b, c), Bottom(c)] + tail)
            == match Octets(tail) { case None => None case Some(rest) => Some([a, b, c] + rest) }
  {
    var v := [Top(a), Upper(a, b), Lower(b, c), Bottom(c)] + tail;
    FirstBack(a, b);
    SecondBack(a, b, c);
    ThirdBack(b, c);
    assert v[4..] == tail;
  }

  lemma LastGroups(x: Sextet, y: Sextet, z: Sextet)
    ensures Octets([x, y]) == Some([First(x, y)])
    ensures Octets([x, y, z]) == Some([First(x, y), Second(y, z)])
  {}

  lemma LastOne(a: Byte)
    ensures Octets([Top(a), Upper(a, 0)]) == Some([a])
  {
    LastGroups(Top(a), Upper(a, 0), 0);
    FirstBack(a, 0);
  }

  lemma LastTwo(a: Byte, b: Byte)
    ensures Octets([Top(a), Upper(a, b), Lower(b, 0)]) == Some([a, b])
  {
    LastGroups(Top(a), Upper(a, b), Lower(b, 0));
    FirstBack(a, b);
    SecondBack(a, b, 0);
  }

  lemma {:induction false} SextetsRoundTrip(data: Bytes)
    ensures Octets(Sextets(data)) == Some(data)
  {
    if |data| == 1 {
      LastOne(data[0]);
      assert data == [data[0]];
    } else if |data| == 2 {
      LastTwo(data[0], data[1]);
      assert data == [data[0], data[1]];
    } else if |data| > 2 {
      SextetsRoundTrip(data[3..]);
      FullGroup(data[0], data[1], data[2], Sextets(data[3..]));
      assert data == [data[0], data[1], data[2]] + data[3..];
    }
  }

  lemma DecodeInvertsEncode(data: Bytes)
    ensures Decode(Encode(data)) == Some(data)
  {
    SextetsRoundTrip(data);
    LettersRoundTrip(Sextets(data));
  }

  lemma EncodeNonEmpty(data: Bytes)
    requires data != []
    ensures Encode(data) != []
  {}

  /** The alphabet and the grouping themselves: a full group, the two kinds of a
      last one, and the letters that make the alphabet the URL-safe one. */
  lemma EncodeExamples()
    ensures Encode([0x14, 0xfb, 0x9c]) == [70, 80, 117, 99]
    ensures Encode([0xd9, 0x7e]) == [50, 88, 52]
    ensures Encode([0x03]) == [65, 119]
    ensures Letter(61) == 57 && Letter(62) == 45 && Letter(63) == 95
  {
    assert Sextets([0x14, 0xfb, 0x9c]) == [5, 15, 46, 28];
    LettersCons(5, [15, 46, 28]);
    LettersCons(15, [46, 28]);
    LettersCons(46, [28]);
    LettersCons(28, []);
    LettersCons(54, [23, 56]);
    LettersCons(23, [56]);
    LettersCons(56, []);
    LettersCons(0, [48]);
    LettersCons(48, []);
  }

  lemma LettersCons(v: Sextet, rest: seq<Sextet>)
    ensures Letters([v] + rest) == [Letter(v)] + Letters(rest)
  {
    assert ([v] + rest)[1..] == rest;
  }
}
