/** UTF-8, RFC 3629: what `as_bytes`, `from_utf8` and `from_utf8_lossy` do. */
module Utf8 {
  import opened Outcomes

  function EncodeChar(c: char): seq<Byte> {
    var n := c as int;
    if n < 0x80 then [n]
    else if n < 0x800 then [0xC0 + n / 0x40, 0x80 + n % 0x40]
    else if n < 0x10000 then [0xE0 + n / 0x1000, 0x80 + n / 0x40 % 0x40, 0x80 + n % 0x40]
    else [0xF0 + n / 0x40000, 0x80 + n / 0x1000 % 0x40, 0x80 + n / 0x40 % 0x40, 0x80 + n % 0x40]
  }

  function Encode(s: string): seq<Byte> {
    if s == "" then [] else EncodeChar(s[0]) + Encode(s[1..])
  }

  predicate Tail(bs: seq<Byte>, i: nat) {
    i < |bs| && 0x80 <= bs[i] < 0xC0
  }

  /** The second byte after `b0`, narrowed so that overlong forms and surrogates are ill-formed. */
  predicate Second(b0: Byte, bs: seq<Byte>) {
    Tail(bs, 1)
    && (b0 == 0xE0 ==> bs[1] >= 0xA0) && (b0 == 0xED ==> bs[1] < 0xA0)
    && (b0 == 0xF0 ==> bs[1] >= 0x90) && (b0 == 0xF4 ==> bs[1] < 0x90)
  }

  /** The first character, or nothing for an ill-formed subpart, and the number of bytes it takes. */
  function First(bs: seq<Byte>): (r: (Option<char>, nat))
    requires bs != []
    ensures 1 <= r.1 <= |bs|
  {
    var b0 := bs[0];
    if b0 < 0x80 then (Some(b0 as char), 1)
    else if b0 < 0xC2 || b0 > 0xF4 || !Second(b0, bs) then (None, 1)
    else if b0 < 0xE0 then (Some(((b0 as int - 0xC0) * 0x40 + (bs[1] - 0x80)) as char), 2)
    else if !Tail(bs, 2) then (None, 2)
    else if b0 < 0xF0 then
      (Some(((b0 as int - 0xE0) * 0x1000 + (bs[1] as int - 0x80) * 0x40 + (bs[2] - 0x80)) as char), 3)
    else if !Tail(bs, 3) then (None, 3)
    else
      var high := (b0 as int - 0xF0) * 0x40000 + (bs[1] as int - 0x80) * 0x1000;
      (Some((high + (bs[2] as int - 0x80) * 0x40 + (bs[3] - 0x80)) as char), 4)
  }

  /** Every ill-formed subpart becomes U+FFFD. */
  function Lossy(bs: seq<Byte>): string {
    if bs == [] then ""
    else
      var (c, n) := First(bs);
      [match c case Some(x) => x case None => '\U{FFFD}'] + Lossy(bs[n..])
  }

  function Strict(bs: seq<Byte>): Option<string> {
    if bs == [] then Some("")
    else
      match First(bs)
      case (Some(c), n) => (match Strict(bs[n..]) case Some(rest) => Some([c] + rest) case None => None)
      case (None, _) => None
  }

  lemma FirstOfEncoded(c: char, rest: seq<Byte>)
    ensures First(EncodeChar(c) + rest) == (Some(c), |EncodeChar(c)|)
  {
    var n := c as int;
    assert n == n / 0x40 * 0x40 + n % 0x40;
    assert n / 0x40 == n / 0x1000 * 0x40 + n / 0x40 % 0x40;
    assert n / 0x1000 == n / 0x40000 * 0x40 + n / 0x1000 % 0x40;
  }

  /** Encoded text decodes to itself, strictly and lossily alike. */
  lemma {:induction false} RoundTrip(s: string)
    ensures Strict(Encode(s)) == Some(s) && Lossy(Encode(s)) == s
  {
    if s == "" {
    } else {
      FirstOfEncoded(s[0], Encode(s[1..]));
      assert Encode(s)[|EncodeChar(s[0])|..] == Encode(s[1..]);
      RoundTrip(s[1..]);
      assert s == [s[0]] + s[1..];
    }
  }

  lemma {:induction false} EncodeConcat(a: string, b: string)
    ensures Encode(a + b) == Encode(a) + Encode(b)
  {
    if a == "" {
      assert a + b == b;
    } else {
      assert (a + b)[1..] == a[1..] + b;
      EncodeConcat(a[1..], b);
    }
  }
}
