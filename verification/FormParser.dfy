/** The urlencoded body of the callback form: the parser of `oauth_handler.rs`, and the serializer it
    reads back (section 5.2 of the WHATWG URL Standard). */
module FormParser {
  import opened Outcomes
  import opened Strings
  import Utf8

  datatype CompleteRequest = CompleteRequest(code: string, state: string)

  // ---------------------------------------------------------------- hex pairs

  predicate Upper(b: Byte) { 'A' as int <= b <= 'Z' as int }
  predicate Lower(b: Byte) { 'a' as int <= b <= 'z' as int }
  predicate Digit(b: Byte) { '0' as int <= b <= '9' as int }

  function ToAsciiUppercase(b: Byte): Byte {
    if Lower(b) then b - 32 else b
  }

  function HexDigit(b: Byte): (d: Option<Byte>)
    ensures d.Some? ==> d.value < 16
  {
    if Digit(b) then Some(b - '0' as int)
    else if 'A' as int <= b <= 'F' as int then Some(b - 'A' as int + 10)
    else None
  }

  function DecodeHexPair(pair: seq<Byte>): Option<Byte> {
    if |pair| < 2 then None
    else
      match (HexDigit(ToAsciiUppercase(pair[0])), HexDigit(ToAsciiUppercase(pair[1])))
      case (Some(hi), Some(lo)) => Some(hi * 16 + lo)
      case _ => None
  }

  // ---------------------------------------------------------------- percent decoding

  /** The bytes an encoded text stands for: `+` is a space, a complete `%XX` one byte, anything else itself. */
  function PercentBytes(bs: seq<Byte>): seq<Byte> {
    if bs == [] then []
    else if bs[0] == '+' as int then [' ' as int] + PercentBytes(bs[1..])
    else if bs[0] == '%' as int && |bs| >= 3 && DecodeHexPair(bs[1..3]).Some? then
      [DecodeHexPair(bs[1..3]).value] + PercentBytes(bs[3..])
    else [bs[0]] + PercentBytes(bs[1..])
  }

  /** What the bytes at `i` decode to, and how many of them that takes. */
  function PercentStep(bytes: seq<Byte>, i: nat): (r: (Byte, nat))
    requires i < |bytes|
    ensures 1 <= r.1 && i + r.1 <= |bytes|
  {
    if bytes[i] == '+' as int then (' ' as int, 1)
    else if bytes[i] == '%' as int && i + 3 <= |bytes| && DecodeHexPair(bytes[i + 1..i + 3]).Some? then
      (DecodeHexPair(bytes[i + 1..i + 3]).value, 3)
    else (bytes[i], 1)
  }

  lemma PercentAt(bytes: seq<Byte>, i: nat, out: seq<Byte>)
    requires i < |bytes|
    ensures
      var (b, n) := PercentStep(bytes, i);
      out + PercentBytes(bytes[i..]) == out + [b] + PercentBytes(bytes[i + n..])
  {
    var rest := bytes[i..];
    var (b, n) := PercentStep(bytes, i);
    assert |rest| >= 3 ==> rest[1..3] == bytes[i + 1..i + 3];
    assert rest[n..] == bytes[i + n..];
    assert PercentBytes(rest) == [b] + PercentBytes(rest[n..]);
  }

  method PercentDecode(input: string) returns (decoded: string)
    ensures decoded == Utf8.Lossy(PercentBytes(Utf8.Encode(input)))
  {
    var bytes := Utf8.Encode(input);
    var out: seq<Byte> := [];
    var i := 0;
    assert bytes[0..] == bytes && out + PercentBytes(bytes) == PercentBytes(bytes);
    while i < |bytes|
      invariant 0 <= i <= |bytes|
      invariant out + PercentBytes(bytes[i..]) == PercentBytes(bytes)
    {
      PercentAt(bytes, i, out);
      if bytes[i] == '+' as int {
        out := out + [' ' as int];
        i := i + 1;
      } else if bytes[i] == '%' as int {
        var pair := if i + 3 <= |bytes| then DecodeHexPair(bytes[i + 1..i + 3]) else None;
        if pair.Some? {
          out := out + [pair.value];
          i := i + 3;
        } else {
          out := out + ['%' as int];
          i := i + 1;
        }
      } else {
        out := out + [bytes[i]];
        i := i + 1;
      }
    }
    assert bytes[i..] == [] && out + [] == out;
    decoded := Utf8.Lossy(out);
  }

  function Decoded(value: string): string {
    Utf8.Lossy(PercentBytes(Utf8.Encode(value)))
  }

  // ---------------------------------------------------------------- the body

  /** The last `code` and the last `state` of the pairs; nothing if a pair has no `=`. */
  function LastFields(pairs: seq<string>): Option<(Option<string>, Option<string>)> {
    if pairs == [] then Some((None, None))
    else
      match (LastFields(pairs[..|pairs| - 1]), SplitOnce(pairs[|pairs| - 1], '='))
      case (Some((code, state)), Some((key, value))) =>
        if key == "code" then Some((Some(Decoded(value)), state))
        else if key == "state" then Some((code, Some(Decoded(value))))
        else Some((code, state))
      case _ => None
  }

  function ParsedForm(body: seq<Byte>): Option<CompleteRequest> {
    match Utf8.Strict(body)
    case None => None
    case Some(text) =>
      match LastFields(Split(text, '&'))
      case Some((Some(code), Some(state))) =>
        if code != "" && state != "" then Some(CompleteRequest(code, state)) else None
      case _ => None
  }

  lemma {:induction false} FieldsFailEarly(pairs: seq<string>, n: nat)
    requires n <= |pairs| && LastFields(pairs[..n]) == None
    ensures LastFields(pairs) == None
    decreases |pairs|
  {
    if n < |pairs| {
      assert pairs[..|pairs| - 1][..n] == pairs[..n];
      FieldsFailEarly(pairs[..|pairs| - 1], n);
    } else {
      assert pairs[..n] == pairs;
    }
  }

  method ParseFormComplete(body: seq<Byte>) returns (r: Option<CompleteRequest>)
    ensures r == ParsedForm(body)
  {
    var text := Utf8.Strict(body);
    if text.None? {
      return None;
    }
    var code: Option<string> := None;
    var state: Option<string> := None;
    var pairs := Split(text.value, '&');
    var k := 0;
    while k < |pairs|
      invariant 0 <= k <= |pairs|
      invariant LastFields(pairs[..k]) == Some((code, state))
    {
      assert pairs[..k + 1][..k] == pairs[..k];
      var parts := SplitOnce(pairs[k], '=');
      if parts.None? {
        FieldsFailEarly(pairs, k + 1);
        return None;
      }
      var decoded := PercentDecode(parts.value.1);
      if parts.value.0 == "code" {
        code := Some(decoded);
      } else if parts.value.0 == "state" {
        state := Some(decoded);
      }
      k := k + 1;
    }
    assert pairs[..k] == pairs;
    if code.None? || code.value == "" || state.None? || state.value == "" {
      return None;
    }
    return Some(CompleteRequest(code.value, state.value));
  }

  // ---------------------------------------------------------------- the serializer

  predicate Unreserved(b: Byte) {
    Upper(b) || Lower(b) || Digit(b) || b == '*' as int || b == '-' as int || b == '.' as int || b == '_' as int
  }

  function HexChar(d: int): char
    requires 0 <= d < 16
  {
    if d < 10 then ('0' as int + d) as char else ('A' as int + d - 10) as char
  }

  function EncodeByte(b: Byte): string {
    if b == ' ' as int then "+"
    else if Unreserved(b) then [b as char]
    else ['%', HexChar(b / 16), HexChar(b % 16)]
  }

  function EncodeBytes(bs: seq<Byte>): string {
    if bs == [] then "" else EncodeByte(bs[0]) + EncodeBytes(bs[1..])
  }

  function EncodedPair(key: string, value: string): string {
    EncodeBytes(Utf8.Encode(key)) + "=" + EncodeBytes(Utf8.Encode(value))
  }

  function EncodePairs(fields: seq<(string, string)>): string {
    if fields == [] then ""
    else
      var pair := EncodedPair(fields[0].0, fields[0].1);
      if |fields| == 1 then pair else pair + "&" + EncodePairs(fields[1..])
  }

  /** The body a browser posts for these fields. */
  function FormBody(fields: seq<(string, string)>): seq<Byte> {
    Utf8.Encode(EncodePairs(fields))
  }

  // ---------------------------------------------------------------- one reads back the other

  predicate Bare(s: string) {
    '&' !in s && '=' !in s
  }

  lemma {:induction false} EncodedIsBare(bs: seq<Byte>)
    ensures Bare(EncodeBytes(bs))
  {
    if bs == [] {
    } else {
      EncodedIsBare(bs[1..]);
      assert Bare(EncodeByte(bs[0]));
    }
  }

  lemma HexBack(b: Byte)
    ensures DecodeHexPair([HexChar(b / 16) as int, HexChar(b % 16) as int]) == Some(b)
  {
  }

  lemma AsciiBytes(s: string)
    requires forall i | 0 <= i < |s| :: s[i] < '\U{80}'
    ensures Utf8.Encode(s) == seq(|s|, i requires 0 <= i < |s| => s[i] as int)
  {
    if s != "" {
      AsciiBytes(s[1..]);
    }
  }

  /** One encoded byte in front decodes to that byte in front. */
  lemma DecodeByte(b: Byte, rest: seq<Byte>)
    ensures PercentBytes(Utf8.Encode(EncodeByte(b)) + rest) == [b] + PercentBytes(rest)
  {
    var bs := Utf8.Encode(EncodeByte(b));
    AsciiBytes(EncodeByte(b));
    if b == ' ' as int || Unreserved(b) {
      assert |bs| == 1 && (bs + rest)[1..] == rest;
    } else {
      HexBack(b);
      assert |bs| == 3 && (bs + rest)[3..] == rest;
      assert (bs + rest)[1..3] == [HexChar(b / 16) as int, HexChar(b % 16) as int];
    }
  }

  lemma {:induction false} DecodeBytes(bs: seq<Byte>)
    ensures PercentBytes(Utf8.Encode(EncodeBytes(bs))) == bs
  {
    if bs == [] {
    } else {
      Utf8.EncodeConcat(EncodeByte(bs[0]), EncodeBytes(bs[1..]));
      DecodeByte(bs[0], Utf8.Encode(EncodeBytes(bs[1..])));
      DecodeBytes(bs[1..]);
      assert bs == [bs[0]] + bs[1..];
    }
  }

  /** Any text, through the serializer and `percent_decode`, comes back. */
  lemma ValueRoundTrip(value: string)
    ensures Decoded(EncodeBytes(Utf8.Encode(value))) == value
  {
    DecodeBytes(Utf8.Encode(value));
    Utf8.RoundTrip(value);
  }

  lemma KeyIsItself(key: string)
    requires key == "code" || key == "state"
    ensures EncodeBytes(Utf8.Encode(key)) == key
  {
    AsciiBytes(key);
    if key == "code" {
      assert Utf8.Encode(key) == ['c' as int, 'o' as int, 'd' as int, 'e' as int];
      Spelled4('c', 'o', 'd', 'e');
    } else {
      assert Utf8.Encode(key) == ['s' as int, 't' as int, 'a' as int, 't' as int, 'e' as int];
      Spelled4('t', 'a', 't', 'e');
      assert EncodeBytes(Utf8.Encode(key)) == EncodeByte('s' as int) + EncodeBytes(Utf8.Encode(key)[1..]);
      assert Utf8.Encode(key)[1..] == ['t' as int, 'a' as int, 't' as int, 'e' as int];
    }
  }

  lemma Spelled4(a: char, b: char, c: char, d: char)
    requires 'a' <= a <= 'z' && 'a' <= b <= 'z' && 'a' <= c <= 'z' && 'a' <= d <= 'z'
    ensures EncodeBytes([a as int, b as int, c as int, d as int]) == [a, b, c, d]
  {
    assert [a as int, b as int, c as int, d as int][1..] == [b as int, c as int, d as int];
    assert [b as int, c as int, d as int][1..] == [c as int, d as int];
    assert [c as int, d as int][1..] == [d as int];
    assert EncodeBytes([d as int]) == [d];
    assert EncodeBytes([c as int, d as int]) == [c, d];
    assert EncodeBytes([b as int, c as int, d as int]) == [b, c, d];
  }

  lemma PairReads(key: string, value: string)
    requires key == "code" || key == "state"
    ensures var pair := EncodedPair(key, value);
      SplitOnce(pair, '=') == Some((key, EncodeBytes(Utf8.Encode(value)))) && '&' !in pair
  {
    KeyIsItself(key);
    EncodedIsBare(Utf8.Encode(key));
    EncodedIsBare(Utf8.Encode(value));
    SplitAtFirst(key, '=', EncodeBytes(Utf8.Encode(value)));
  }

  lemma TwoFields(p: string, q: string, code64: string, state64: string)
    requires SplitOnce(p, '=') == Some(("code", code64)) && SplitOnce(q, '=') == Some(("state", state64))
    ensures LastFields([p, q]) == Some((Some(Decoded(code64)), Some(Decoded(state64))))
  {
    assert [p, q][..1] == [p] && [p][..0] == [];
    assert LastFields([]) == Some((None, None));
    assert LastFields([p]) == Some((Some(Decoded(code64)), None));
  }

  lemma TwoPairs(p: string, q: string)
    requires '&' !in p && '&' !in q
    ensures Split(p + "&" + q, '&') == [p, q]
  {
    SplitConcat(p, '&', q);
    SplitWhole(p, '&');
    SplitWhole(q, '&');
  }

  lemma TwoPairsParse(p: string, q: string, code: string, state: string)
    requires '&' !in p && '&' !in q && code != "" && state != ""
    requires LastFields([p, q]) == Some((Some(code), Some(state)))
    ensures ParsedForm(Utf8.Encode(p + "&" + q)) == Some(CompleteRequest(code, state))
  {
    Utf8.RoundTrip(p + "&" + q);
    TwoPairs(p, q);
  }

  /** The parser reads back the body of the two-field form, for any non-empty values. */
  lemma FormRoundTrip(code: string, state: string)
    requires code != "" && state != ""
    ensures ParsedForm(FormBody([("code", code), ("state", state)])) == Some(CompleteRequest(code, state))
  {
    var fields := [("code", code), ("state", state)];
    var p, q := EncodedPair("code", code), EncodedPair("state", state);
    assert EncodePairs(fields) == p + "&" + q by { assert fields[1..] == [("state", state)]; }
    PairReads("code", code);
    PairReads("state", state);
    TwoFields(p, q, EncodeBytes(Utf8.Encode(code)), EncodeBytes(Utf8.Encode(state)));
    ValueRoundTrip(code);
    ValueRoundTrip(state);
    TwoPairsParse(p, q, code, state);
  }

  // ---------------------------------------------------------------- whatever else is posted

  /** `d` is what a hex digit of either case stands for. */
  predicate StandsFor(b: Byte, d: int) {
    || ('0' as int <= b <= '9' as int && d == b - '0' as int)
    || ('A' as int <= b <= 'F' as int && d == b - 'A' as int + 10)
    || ('a' as int <= b <= 'f' as int && d == b - 'a' as int + 10)
  }

  /** A pair is decoded exactly when both are hex digits, the first of them the higher. */
  lemma HexPairExactly(a: Byte, b: Byte, v: Byte)
    ensures DecodeHexPair([a, b]) == Some(v)
            <==> exists hi, lo :: StandsFor(a, hi) && StandsFor(b, lo) && v == hi * 16 + lo
  {
    if DecodeHexPair([a, b]) == Some(v) {
      var (hi, lo) := (HexDigit(ToAsciiUppercase(a)).value, HexDigit(ToAsciiUppercase(b)).value);
      assert StandsFor(a, hi) && StandsFor(b, lo);
    }
  }

  /** Bytes that are neither a plus nor a percent sign are themselves. */
  lemma {:induction false} PlainIsItself(bs: seq<Byte>)
    requires '+' as int !in bs && '%' as int !in bs
    ensures PercentBytes(bs) == bs
  {
    if bs == [] {
    } else {
      PlainIsItself(bs[1..]);
      assert bs == [bs[0]] + bs[1..];
    }
  }

  predicate KeyedBy(pair: string, key: string) {
    SplitOnce(pair, '=').Some? && SplitOnce(pair, '=').value.0 == key
  }

  /** The decoded value of the last pair with this key, if there is one. */
  predicate IsLastOf(pairs: seq<string>, key: string, found: Option<string>) {
    match found
    case None => forall i | 0 <= i < |pairs| :: !KeyedBy(pairs[i], key)
    case Some(value) =>
      exists i :: 0 <= i < |pairs| && KeyedBy(pairs[i], key) && value == Decoded(SplitOnce(pairs[i], '=').value.1)
        && forall j | i < j < |pairs| :: !KeyedBy(pairs[j], key)
  }

  lemma LastOfAppended(pairs: seq<string>, pair: string, key: string, found: Option<string>)
    requires IsLastOf(pairs, key, found)
    ensures if KeyedBy(pair, key) then IsLastOf(pairs + [pair], key, Some(Decoded(SplitOnce(pair, '=').value.1)))
            else IsLastOf(pairs + [pair], key, found)
  {
    var ps := pairs + [pair];
    assert ps[|pairs|] == pair && forall i | 0 <= i < |pairs| :: ps[i] == pairs[i];
  }

  /** Of fields posted more than once the last one counts, and a pair without an equals sign fails the whole body. */
  lemma {:induction false} LastFieldsMean(pairs: seq<string>)
    ensures LastFields(pairs).Some? <==> forall i | 0 <= i < |pairs| :: SplitOnce(pairs[i], '=').Some?
    ensures LastFields(pairs).Some? ==>
      IsLastOf(pairs, "code", LastFields(pairs).value.0) && IsLastOf(pairs, "state", LastFields(pairs).value.1)
  {
    if pairs == [] {
    } else {
      var (rest, last) := (pairs[..|pairs| - 1], pairs[|pairs| - 1]);
      LastFieldsMean(rest);
      assert pairs == rest + [last];
      assert forall i | 0 <= i < |rest| :: pairs[i] == rest[i];
      if LastFields(rest).Some? {
        LastOfAppended(rest, last, "code", LastFields(rest).value.0);
        LastOfAppended(rest, last, "state", LastFields(rest).value.1);
        assert "code" != "state" by { assert "code"[0] != "state"[0]; }
      }
    }
  }
}
