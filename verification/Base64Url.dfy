/**
 The URL-safe base64 of section 5 of RFC 4648, with the padding stripped from
 tokens and restored from their length, as section 3.2 permits.
 */
module Base64Url {
  import opened Results

  newtype Byte = x: int | 0 <= x < 256

  type Digit = x: int | 0 <= x < 64

  function Char(d: Digit): char {
    if d < 26 then 'A' + d as char
    else if d < 52 then 'a' + (d - 26) as char
    else if d < 62 then '0' + (d - 52) as char
    else if d == 62 then '-'
    else '_'
  }

  function Value(c: char): Option<Digit> {
    if 'A' <= c <= 'Z' then Some(c as int - 'A' as int)
    else if 'a' <= c <= 'z' then Some(c as int - 'a' as int + 26)
    else if '0' <= c <= '9' then Some(c as int - '0' as int + 52)
    else if c == '-' then Some(62)
    else if c == '_' then Some(63)
    else None
  }

  lemma CharValue(d: Digit)
    ensures Value(Char(d)) == Some(d) && Char(d) != '='
  {
  }

  /** Three bytes as four digits, and back. */
  function Split(a: Byte, b: Byte, c: Byte): (r: (Digit, Digit, Digit, Digit)) {
    var x, y, z := a as int, b as int, c as int;
    (x / 4, x % 4 * 16 + y / 16, y % 16 * 4 + z / 64, z % 64)
  }

  function Join(p: Digit, q: Digit, r: Digit, s: Digit): (Byte, Byte, Byte) {
    ((p * 4 + q / 16) as Byte, (q % 16 * 16 + r / 4) as Byte, (r % 4 * 64 + s) as Byte)
  }

  lemma JoinSplit(a: Byte, b: Byte, c: Byte)
    ensures var (p, q, r, s) := Split(a, b, c); Join(p, q, r, s) == (a, b, c)
  {
    var x, y, z := a as int, b as int, c as int;
    assert (x % 4 * 16 + y / 16) / 16 == x % 4;
    assert (x % 4 * 16 + y / 16) % 16 == y / 16;
    assert (y % 16 * 4 + z / 64) / 4 == y % 16;
    assert (y % 16 * 4 + z / 64) % 4 == z / 64;
  }

  /** With padding: always a multiple of four characters. */
  function Encode(bytes: seq<Byte>): string {
    if bytes == [] then ""
    else if |bytes| == 1 then
      var (p, q, _, _) := Split(bytes[0], 0, 0);
      [Char(p), Char(q), '=', '=']
    else if |bytes| == 2 then
      var (p, q, r, _) := Split(bytes[0], bytes[1], 0);
      [Char(p), Char(q), Char(r), '=']
    else
      var (p, q, r, s) := Split(bytes[0], bytes[1], bytes[2]);
      [Char(p), Char(q), Char(r), Char(s)] + Encode(bytes[3..])
  }

  function Decode(text: string): Result<seq<Byte>, string> {
    if text == "" then Ok([])
    else if |text| < 4 then Err("Incorrect padding")
    else if |text| == 4 && text[2] == '=' && text[3] == '=' then
      match (Value(text[0]), Value(text[1]))
      case (Some(p), Some(q)) => Ok([Join(p, q, 0, 0).0])
      case _ => Err("Incorrect padding")
    else if |text| == 4 && text[3] == '=' then
      match (Value(text[0]), Value(text[1]), Value(text[2]))
      case (Some(p), Some(q), Some(r)) => Ok([Join(p, q, r, 0).0, Join(p, q, r, 0).1])
      case _ => Err("Incorrect padding")
    else
      match (Value(text[0]), Value(text[1]), Value(text[2]), Value(text[3]))
      case (Some(p), Some(q), Some(r), Some(s)) =>
        var rest :- Decode(text[4..]);
        var (a, b, c) := Join(p, q, r, s);
        Ok([a, b, c] + rest)
      case _ => Err("Incorrect padding")
  }

  lemma DecodeOne(a: Byte)
    ensures Decode(Encode([a])) == Ok([a])
  {
    hide Char, Value, Split, Join;
    var (p, q, _, _) := Split(a, 0, 0);
    CharValue(p);
    CharValue(q);
    JoinSplit(a, 0, 0);
    SplitZeros(a, 0);
  }

  lemma DecodeTwo(a: Byte, b: Byte)
    ensures Decode(Encode([a, b])) == Ok([a, b])
  {
    hide Char, Value, Split, Join;
    var (p, q, r, _) := Split(a, b, 0);
    CharValue(p);
    CharValue(q);
    CharValue(r);
    JoinSplit(a, b, 0);
    SplitZeros(a, b);
  }

  lemma DecodeGroup(a: Byte, b: Byte, c: Byte, rest: string)
    ensures var (p, q, r, s) := Split(a, b, c);
            Decode([Char(p), Char(q), Char(r), Char(s)] + rest)
            == match Decode(rest) case Err(e) => Err(e) case Ok(bytes) => Ok([a, b, c] + bytes)
  {
    hide Char, Value, Split, Join;
    var (p, q, r, s) := Split(a, b, c);
    CharValue(p);
    CharValue(q);
    CharValue(r);
    CharValue(s);
    JoinSplit(a, b, c);
    var group := [Char(p), Char(q), Char(r), Char(s)];
    assert (group + rest)[4..] == rest;
  }

  lemma {:induction false} DecodeEncode(bytes: seq<Byte>)
    ensures Decode(Encode(bytes)) == Ok(bytes)
  {
    hide Char, Value, Split, Join, Decode;
    if bytes == [] {
      DecodeNothing();
    } else if |bytes| == 1 {
      assert bytes == [bytes[0]];
      DecodeOne(bytes[0]);
    } else if |bytes| == 2 {
      assert bytes == [bytes[0], bytes[1]];
      DecodeTwo(bytes[0], bytes[1]);
    } else {
      DecodeGroup(bytes[0], bytes[1], bytes[2], Encode(bytes[3..]));
      DecodeEncode(bytes[3..]);
      assert bytes == [bytes[0], bytes[1], bytes[2]] + bytes[3..];
    }
  }

  lemma DecodeNothing()
    ensures Decode("") == Ok([])
  {
  }

  lemma SplitZeros(a: Byte, b: Byte)
    ensures Split(a, b, 0).3 == 0 && Split(a, 0, 0).2 == 0
  {
  }

  /** rstrip("="). */
  function Strip(text: string): string {
    if text != "" && text[|text| - 1] == '=' then Strip(text[..|text| - 1]) else text
  }

  function Padding(n: nat): string {
    if n == 0 then "" else "=" + Padding(n - 1)
  }

  /** text + "=" * (-len(text) % 4). */
  function Restore(text: string): string {
    text + Padding((4 - |text| % 4) % 4)
  }

  lemma {:induction false} NoPadding(bytes: seq<Byte>)
    requires |bytes| % 3 == 0
    ensures Strip(Encode(bytes)) == Encode(bytes) && '=' !in Encode(bytes)
  {
    hide Char, Split;
    if bytes != [] {
      NoPadding(bytes[3..]);
      var (p, q, r, s) := Split(bytes[0], bytes[1], bytes[2]);
      CharValue(p);
      CharValue(q);
      CharValue(r);
      CharValue(s);
      assert Encode(bytes)[|Encode(bytes)| - 1] in Encode(bytes);
    }
  }

  lemma {:induction false} EncodedLength(bytes: seq<Byte>)
    ensures |Encode(bytes)| % 4 == 0
  {
    hide Char, Split;
    if |bytes| > 2 {
      EncodedLength(bytes[3..]);
    }
  }

  lemma FirstGroup(a: seq<Byte>, b: seq<Byte>)
    requires |a| >= 3
    ensures a + b == [a[0], a[1], a[2]] + (a[3..] + b) && a == [a[0], a[1], a[2]] + a[3..]
  {
  }

  /** The last, incomplete group stands behind complete ones. */
  lemma {:induction false} EncodeJoin(a: seq<Byte>, b: seq<Byte>)
    requires |a| % 3 == 0
    ensures Encode(a + b) == Encode(a) + Encode(b)
  {
    hide Char, Split;
    if a == [] {
      assert a + b == b;
    } else {
      hide *;
      var rest := a[3..];
      EncodeJoin(rest, b);
      FirstGroup(a, b);
    }
  }

  lemma {:induction false} StripBehind(a: string, b: string)
    requires '=' !in a && Strip(b) != ""
    ensures Strip(a + b) == a + Strip(b)
    decreases |b|
  {
    if b[|b| - 1] == '=' {
      StripBehind(a, b[..|b| - 1]);
      assert (a + b)[..|a| + |b| - 1] == a + b[..|b| - 1];
    }
  }

  lemma Four(n: nat)
    requires n % 4 == 0
    ensures Padding((4 - n % 4) % 4) == "" && Padding((4 - (n + 2) % 4) % 4) == "==" && Padding((4 - (n + 3) % 4) % 4) == "="
  {
    assert Padding(1) == "=" + Padding(0);
    assert Padding(2) == "=" + Padding(1);
  }

  /** Stripping and restoring the padding gives the padded text back. */
  lemma RestoreStrip(bytes: seq<Byte>)
    ensures Restore(Strip(Encode(bytes))) == Encode(bytes)
  {
    hide Char, Split, Encode, Strip, Padding;
    var n := |bytes| - |bytes| % 3;
    var a, b := bytes[..n], bytes[n..];
    assert bytes == a + b;
    EncodeJoin(a, b);
    NoPadding(a);
    EncodedLength(a);
    Four(|Encode(a)|);
    if b == [] {
      assert bytes == a;
      assert Encode(a) + "" == Encode(a);
    } else {
      LastGroup(b);
      StripBehind(Encode(a), Encode(b));
      var s, p := Strip(Encode(b)), if |b| == 1 then "==" else "=";
      assert Encode(a) + (s + p) == (Encode(a) + s) + p;
    }
  }

  lemma LastGroup(b: seq<Byte>)
    requires 1 <= |b| <= 2
    ensures var s := Strip(Encode(b)); |s| == |b| + 1 && Encode(b) == s + if |b| == 1 then "==" else "="
  {
    hide Char, Split;
    var (p, q, r, _) := Split(b[0], if |b| == 2 then b[1] else 0, 0);
    CharValue(p);
    CharValue(q);
    CharValue(r);
    if |b| == 1 {
      StripTwo(Char(p), Char(q));
    }
  }

  lemma StripTwo(a: char, b: char)
    requires b != '='
    ensures Strip([a, b, '=', '=']) == [a, b] && [a, b, '=', '='] == [a, b] + "=="
  {
    assert [a, b, '=', '='][..3] == [a, b, '='];
    assert [a, b, '='][..2] == [a, b];
    assert Strip([a, b]) == [a, b];
    assert Strip([a, b, '=']) == [a, b];
  }

  /** Tokens carry no padding and decode to what was encoded. */
  lemma TokenRoundTrip(bytes: seq<Byte>)
    ensures Decode(Restore(Strip(Encode(bytes)))) == Ok(bytes)
  {
    RestoreStrip(bytes);
    DecodeEncode(bytes);
  }
}
