/** Unpadded base64url, section 5 of RFC 4648, with a strict decoder: no padding, no stray bits. */
module Base64Url {
  import opened Outcomes

  type Sextet = d: int | 0 <= d < 64

  // ---------------------------------------------------------------- letters

  predicate InAlphabet(c: char) {
    'A' <= c <= 'Z' || 'a' <= c <= 'z' || '0' <= c <= '9' || c == '-' || c == '_'
  }

  function CharOf(d: Sextet): (c: char)
    ensures InAlphabet(c)
  {
    if d < 26 then ('A' as int + d) as char
    else if d < 52 then ('a' as int + (d - 26)) as char
    else if d < 62 then ('0' as int + (d - 52)) as char
    else if d == 62 then '-'
    else '_'
  }

  function DigitOf(c: char): (d: Sextet)
    requires InAlphabet(c)
    ensures CharOf(d) == c
  {
    if 'A' <= c <= 'Z' then c as int - 'A' as int
    else if 'a' <= c <= 'z' then c as int - 'a' as int + 26
    else if '0' <= c <= '9' then c as int - '0' as int + 52
    else if c == '-' then 62
    else 63
  }

  lemma DigitOfChar(d: Sextet)
    ensures DigitOf(CharOf(d)) == d
  {
  }

  predicate AllLetters(s: string) {
    forall i | 0 <= i < |s| :: InAlphabet(s[i])
  }

  function Spell(ds: seq<Sextet>): (s: string)
    ensures |s| == |ds| && forall i | 0 <= i < |ds| :: s[i] == CharOf(ds[i])
  {
    seq(|ds|, i requires 0 <= i < |ds| => CharOf(ds[i]))
  }

  function Digits(s: string): (ds: seq<Sextet>)
    requires AllLetters(s)
    ensures |ds| == |s| && forall i | 0 <= i < |s| :: ds[i] == DigitOf(s[i])
  {
    seq(|s|, i requires 0 <= i < |s| => DigitOf(s[i]))
  }

  lemma DigitsOfSpelled(ds: seq<Sextet>)
    ensures AllLetters(Spell(ds)) && Digits(Spell(ds)) == ds
  {
    forall i | 0 <= i < |ds| ensures Digits(Spell(ds))[i] == ds[i] { DigitOfChar(ds[i]); }
  }

  lemma SpelledDigits(s: string)
    requires AllLetters(s)
    ensures Spell(Digits(s)) == s
  {
  }

  // ---------------------------------------------------------------- three bytes, four sextets

  function Pack3(b0: Byte, b1: Byte, b2: Byte): seq<Sextet> {
    [b0 / 4, b0 % 4 * 16 + b1 / 16, b1 % 16 * 4 + b2 / 64, b2 % 64]
  }

  function Unpack4(d0: Sextet, d1: Sextet, d2: Sextet, d3: Sextet): seq<Byte> {
    var b0: int := d0 as int * 4 + d1 / 16;
    var b1: int := (d1 % 16) as int * 16 + d2 / 4;
    var b2: int := (d2 % 4) as int * 64 + d3;
    [b0, b1, b2]
  }

  lemma Split4(x: int, y: int)
    requires 0 <= y < 4
    ensures (x * 4 + y) / 4 == x && (x * 4 + y) % 4 == y
  {
  }

  lemma Split16(x: int, y: int)
    requires 0 <= y < 16
    ensures (x * 16 + y) / 16 == x && (x * 16 + y) % 16 == y
  {
  }

  lemma Split64(x: int, y: int)
    requires 0 <= y < 64
    ensures (x * 64 + y) / 64 == x && (x * 64 + y) % 64 == y
  {
  }

  lemma Unpack4OfPack3(b0: Byte, b1: Byte, b2: Byte)
    ensures var q := Pack3(b0, b1, b2); Unpack4(q[0], q[1], q[2], q[3]) == [b0, b1, b2]
  {
  }

  lemma Pack3OfUnpack4(d0: Sextet, d1: Sextet, d2: Sextet, d3: Sextet)
    ensures var t := Unpack4(d0, d1, d2, d3); Pack3(t[0], t[1], t[2]) == [d0, d1, d2, d3]
  {
    Split4(d0, d1 / 16);
    Split16(d1 % 16, d2 / 4);
    Split64(d2 % 4, d3);
  }

  /** The last group may be short; what is missing counts as zero and is not written. */
  function Pack(bs: seq<Byte>): seq<Sextet> {
    if |bs| == 0 then []
    else if |bs| == 1 then Pack3(bs[0], 0, 0)[..2]
    else if |bs| == 2 then Pack3(bs[0], bs[1], 0)[..3]
    else Pack3(bs[0], bs[1], bs[2]) + Pack(bs[3..])
  }

  function Unpack(ds: seq<Sextet>): Option<seq<Byte>> {
    if |ds| == 0 then Some([])
    else if |ds| == 1 then None
    else if |ds| == 2 then
      var t := Unpack4(ds[0], ds[1], 0, 0);
      if t[1] == 0 then Some(t[..1]) else None
    else if |ds| == 3 then
      var t := Unpack4(ds[0], ds[1], ds[2], 0);
      if t[2] == 0 then Some(t[..2]) else None
    else
      match Unpack(ds[4..])
      case Some(rest) => Some(Unpack4(ds[0], ds[1], ds[2], ds[3]) + rest)
      case None => None
  }

  lemma {:induction false} UnpackPacked(bs: seq<Byte>)
    ensures Unpack(Pack(bs)) == Some(bs)
  {
    if |bs| == 1 {
      Unpack4OfPack3(bs[0], 0, 0);
      assert Pack3(bs[0], 0, 0)[2] == 0 && Pack3(bs[0], 0, 0)[3] == 0;
      assert [bs[0], 0, 0][..1] == bs;
    } else if |bs| == 2 {
      Unpack4OfPack3(bs[0], bs[1], 0);
      assert [bs[0], bs[1], 0][..2] == bs;
    } else if |bs| > 2 {
      Unpack4OfPack3(bs[0], bs[1], bs[2]);
      UnpackPacked(bs[3..]);
      assert Pack(bs)[4..] == Pack(bs[3..]);
      assert bs == [bs[0], bs[1], bs[2]] + bs[3..];
    }
  }

  lemma {:induction false} PackUnpacked(ds: seq<Sextet>)
    requires Unpack(ds).Some?
    ensures Pack(Unpack(ds).value) == ds
  {
    if |ds| == 2 {
      Pack3OfUnpack4(ds[0], ds[1], 0, 0);
    } else if |ds| == 3 {
      Pack3OfUnpack4(ds[0], ds[1], ds[2], 0);
    } else if |ds| > 3 {
      var t := Unpack4(ds[0], ds[1], ds[2], ds[3]);
      Pack3OfUnpack4(ds[0], ds[1], ds[2], ds[3]);
      PackUnpacked(ds[4..]);
      assert (t + Unpack(ds[4..]).value)[3..] == Unpack(ds[4..]).value;
      assert ds == [ds[0], ds[1], ds[2], ds[3]] + ds[4..];
    }
  }

  // ---------------------------------------------------------------- text

  function Encode(bs: seq<Byte>): string {
    Spell(Pack(bs))
  }

  function Decode(s: string): Option<seq<Byte>> {
    if AllLetters(s) then Unpack(Digits(s)) else None
  }

  /** What is encoded decodes to itself. */
  lemma RoundTrip(bs: seq<Byte>)
    ensures Decode(Encode(bs)) == Some(bs)
  {
    DigitsOfSpelled(Pack(bs));
    UnpackPacked(bs);
  }

  /** Only one string decodes to given bytes: the strict decoder accepts canonical text alone. */
  lemma Canonical(s: string, bs: seq<Byte>)
    ensures Decode(s) == Some(bs) <==> s == Encode(bs)
  {
    RoundTrip(bs);
    if Decode(s) == Some(bs) {
      PackUnpacked(Digits(s));
      SpelledDigits(s);
    }
  }

  lemma EncodedLetters(bs: seq<Byte>)
    ensures AllLetters(Encode(bs))
  {
    DigitsOfSpelled(Pack(bs));
  }

  /** The URL-safe alphabet of table 2 in RFC 4648: capitals, small letters and digits in a row, then two signs. With
      it, a test vector of section 10, one without its padding, and one of the two signs. */
  lemma UrlSafe()
    ensures CharOf(0) == 'A' && CharOf(26) == 'a' && CharOf(52) == '0' && CharOf(62) == '-' && CharOf(63) == '_'
    ensures forall d: Sextet | d < 61 && d != 25 && d != 51 :: CharOf(d + 1) as int == CharOf(d) as int + 1
    ensures Encode([0x66, 0x6f, 0x6f]) == "Zm9v" && Encode([0x66]) == "Zg" && Encode([0xfb, 0xff]) == "-_8"
  {
    assert Pack3(0x66, 0x6f, 0x6f) == [25, 38, 61, 47] && [0x66, 0x6f, 0x6f][3..] == [];
    assert Pack([0x66, 0x6f, 0x6f]) == [25, 38, 61, 47];
    assert Pack([0x66]) == [25, 32];
    assert Pack([0xfb, 0xff]) == [62, 63, 60];
  }
}
